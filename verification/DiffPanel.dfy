/**
 The review panel while its answers are under way: the handlers change the
 state behind an await, whatever was chosen in the meantime.
 */
module DiffPanel {
  import opened Text

  /** A changed file, and the pull request it was listed for. */
  datatype Entry = Entry(pull: nat, path: string)

  datatype Request = Summary(pull: nat) | More(pull: nat) | Patch(pull: nat, path: string)

  /** `loaded` says that the payload is there, and `shown` is the file whose patch stands on the page. */
  datatype State = State(pull: nat, files: seq<Entry>, selected: Option<string>, loaded: bool, shown: Option<Entry>,
                         inflight: seq<Request>)

  datatype Event =
    | Mount                                      // the panel is drawn anew with its summary
    | Choose(pull: nat)                          // another pull request
    | Click(path: string)                        // a file, or the one before or behind it
    | ClickMore                                  // more files
    | Answer(k: nat, paths: seq<string>)         // the k-th request is answered; a patch brings no paths
    | Fail(k: nat)

  function Init(pull: nat): State { State(pull, [], None, false, None, [Summary(pull)]) }

  // ----- the handlers

  function Tagged(pull: nat, paths: seq<string>): (files: seq<Entry>)
    ensures |files| == |paths|
  {
    seq(|paths|, k requires 0 <= k < |paths| => Entry(pull, paths[k]))
  }

  predicate Listed(files: seq<Entry>, path: string) { exists k :: 0 <= k < |files| && files[k].path == path }

  /** The paths that are not listed, compared by path alone. */
  function Fresh(files: seq<Entry>, paths: seq<string>): seq<string> {
    if paths == [] then []
    else (if Listed(files, paths[0]) then [] else [paths[0]]) + Fresh(files, paths[1..])
  }

  function Asked(s: State, request: Request): State { s.(inflight := s.inflight + [request]) }

  function Without(requests: seq<Request>, k: nat): seq<Request>
    requires k < |requests|
  {
    requests[..k] + requests[k + 1..]
  }

  /** Behind the summary: the patch of what is selected now, or a panel without one. */
  function Selected(s: State): State {
    match s.selected
    case Some(path) => Asked(s, Patch(s.pull, path))
    case None => s.(loaded := true, shown := None)
  }

  /** `renderDiffPanel(false)` up to its first await */
  function Draw(s: State): State { if s.loaded then Selected(s) else Asked(s, Summary(s.pull)) }

  function Chosen(selected: Option<string>, paths: seq<string>): Option<string> {
    if selected.Some? && selected.value in paths then selected else if paths == [] then None else Some(paths[0])
  }

  function OnSummary(s: State, pull: nat, paths: seq<string>): State {
    Selected(s.(files := Tagged(pull, paths), selected := Chosen(s.selected, paths)))
  }

  function OnMore(s: State, pull: nat, paths: seq<string>): State {
    Draw(s.(files := s.files + Tagged(pull, Fresh(s.files, paths))))
  }

  function OnPatch(s: State, pull: nat, path: string): State {
    s.(loaded := true, shown := Some(Entry(pull, path)))
  }

  function Step(s: State, e: Event): State {
    match e
    case Mount => Asked(s, Summary(s.pull))
    case Choose(pull) => Asked(s.(pull := pull, selected := None, loaded := false), Summary(pull))
    case Click(path) => Draw(s.(selected := Some(path)))
    case ClickMore => Asked(s, More(s.pull))
    case Answer(k, paths) =>
      if k >= |s.inflight| then s
      else
        var t := s.(inflight := Without(s.inflight, k));
        (match s.inflight[k]
         case Summary(pull) => OnSummary(t, pull, paths)
         case More(pull) => OnMore(t, pull, paths)
         case Patch(pull, path) => OnPatch(t, pull, path))
    case Fail(k) => if k < |s.inflight| then s.(inflight := Without(s.inflight, k)) else s
  }

  function Run(pull: nat, events: seq<Event>): State {
    if events == [] then Init(pull) else Step(Run(pull, events[..|events| - 1]), events[|events| - 1])
  }

  // ----- the state of the page

  class Panel {
    var pull: nat
    var files: seq<Entry>
    var selected: Option<string>
    var loaded: bool
    var shown: Option<Entry>
    var inflight: seq<Request>

    function View(): State
      reads this
    {
      State(pull, files, selected, loaded, shown, inflight)
    }

    constructor (first: nat)
      ensures View() == Init(first)
    {
      pull, files, selected, loaded, shown, inflight := first, [], None, false, None, [Summary(first)];
    }

    method LoadSelected()
      modifies this
      ensures View() == Selected(old(View()))
    {
      if selected.Some? {
        inflight := inflight + [Patch(pull, selected.value)];
      } else {
        loaded, shown := true, None;
      }
    }

    method RenderDiffPanel(forceSummary: bool)
      modifies this
      ensures View() == if forceSummary then Asked(old(View()), Summary(old(pull))) else Draw(old(View()))
    {
      if forceSummary || !loaded {
        inflight := inflight + [Summary(pull)];
      } else {
        LoadSelected();
      }
    }

    method ChoosePull(number: nat)
      modifies this
      ensures View() == Step(old(View()), Choose(number))
    {
      pull := number;
      selected := None;
      loaded := false;
      RenderDiffPanel(true);
    }

    method ClickFile(path: string)
      modifies this
      ensures View() == Step(old(View()), Click(path))
    {
      selected := Some(path);
      RenderDiffPanel(false);
    }

    method LoadMore()
      modifies this
      ensures View() == Step(old(View()), ClickMore)
    {
      inflight := inflight + [More(pull)];
    }

    /** What the handlers do behind their awaits. */
    method OnAnswer(k: nat, paths: seq<string>)
      modifies this
      ensures View() == Step(old(View()), Answer(k, paths))
    {
      if k < |inflight| {
        var request := inflight[k];
        inflight := Without(inflight, k);
        match request {
          case Summary(of) =>
            files := Tagged(of, paths);
            if selected.None? || selected.value !in paths {
              selected := if paths == [] then None else Some(paths[0]);
            }
            LoadSelected();
          case More(of) =>
            files := files + Tagged(of, Fresh(files, paths));
            RenderDiffPanel(false);
          case Patch(of, path) =>
            loaded, shown := true, Some(Entry(of, path));
        }
      }
    }
  }

  // ----- what each event does

  /** Everything but the answers: what is chosen, and what is asked for. */
  lemma AsksExactly(s: State, e: Event)
    requires !e.Answer?
    ensures var t := Step(s, e);
            && t.pull == (if e.Choose? then e.pull else s.pull)
            && t.selected == (if e.Choose? then None else if e.Click? then Some(e.path) else s.selected)
            && t.loaded == (s.loaded && !e.Choose?) && t.files == s.files && t.shown == s.shown
            && t.inflight == match e
                             case Mount => s.inflight + [Summary(s.pull)]
                             case Choose(pull) => s.inflight + [Summary(pull)]
                             case Click(path) => s.inflight + [if s.loaded then Patch(s.pull, path) else Summary(s.pull)]
                             case ClickMore => s.inflight + [More(s.pull)]
                             case Fail(k) => if k < |s.inflight| then s.inflight[..k] + s.inflight[k + 1..] else s.inflight
                             case _ => s.inflight
  {
  }

  /** A summary replaces the list, keeps the selection if it is listed and takes the first file if not, and asks for its patch. */
  lemma SummaryArrives(s: State, k: nat, paths: seq<string>)
    requires k < |s.inflight| && s.inflight[k].Summary?
    ensures var t, rest := Step(s, Answer(k, paths)), s.inflight[..k] + s.inflight[k + 1..];
            && t.pull == s.pull && |t.files| == |paths|
            && (forall n :: 0 <= n < |paths| ==> t.files[n] == Entry(s.inflight[k].pull, paths[n]))
            && (if paths == [] then
                  t.selected == None && t.inflight == rest && t.loaded && t.shown == None
                else
                  && t.selected == (if s.selected.Some? && s.selected.value in paths then s.selected else Some(paths[0]))
                  && t.inflight == rest + [Patch(s.pull, t.selected.value)] && t.loaded == s.loaded && t.shown == s.shown)
  {
  }

  lemma {:induction false} FreshPaths(files: seq<Entry>, paths: seq<string>)
    ensures forall path :: path in Fresh(files, paths) <==> path in paths && forall file <- files :: file.path != path
  {
    if paths != [] {
      FreshPaths(files, paths[1..]);
      assert paths == [paths[0]] + paths[1..];
    }
  }

  /** More files are added behind the list unless their path is on it, and the panel is drawn with what is selected by now. */
  lemma MoreArrives(s: State, k: nat, paths: seq<string>)
    requires k < |s.inflight| && s.inflight[k].More?
    ensures var t, rest := Step(s, Answer(k, paths)), s.inflight[..k] + s.inflight[k + 1..];
            && t.pull == s.pull && t.selected == s.selected && s.files <= t.files
            && (forall entry :: entry in t.files[|s.files|..] <==>
                  entry.pull == s.inflight[k].pull && entry.path in paths && forall file <- s.files :: file.path != entry.path)
            && (if !s.loaded then t.inflight == rest + [Summary(s.pull)] && !t.loaded && t.shown == s.shown
                else if s.selected.Some? then t.inflight == rest + [Patch(s.pull, s.selected.value)] && t.loaded && t.shown == s.shown
                else t.inflight == rest && t.loaded && t.shown == None)
  {
    hide Fresh;
    var pull, added := s.inflight[k].pull, Fresh(s.files, paths);
    FreshPaths(s.files, paths);
    var t := Step(s, Answer(k, paths));
    assert t.files[|s.files|..] == Tagged(pull, added);
    forall entry: Entry ensures entry in Tagged(pull, added) <==> entry.pull == pull && entry.path in added {
      if entry.path in added && entry.pull == pull {
        var n :| 0 <= n < |added| && added[n] == entry.path;
        assert Tagged(pull, added)[n] == entry;
      }
    }
  }

  /** A patch is put on the page as that of the file it was asked for. */
  lemma PatchArrives(s: State, k: nat, paths: seq<string>)
    requires k < |s.inflight| && s.inflight[k].Patch?
    ensures Step(s, Answer(k, paths))
            == s.(inflight := s.inflight[..k] + s.inflight[k + 1..], loaded := true,
                  shown := Some(Entry(s.inflight[k].pull, s.inflight[k].path)))
  {
  }

  // ----- do list and patch belong to the selection?

  /** Every listed file is one of the selected pull request. */
  ghost predicate Owned(s: State) { forall file <- s.files :: file.pull == s.pull }

  /** The patch on the page is that of the selected file. */
  predicate Shows(s: State) {
    s.shown == match s.selected case Some(path) => Some(Entry(s.pull, path)) case None => None
  }

  /** The answer is for what is selected when it arrives. */
  predicate IsCurrent(s: State, request: Request) {
    match request
    case Summary(pull) => pull == s.pull
    case More(pull) => pull == s.pull
    case Patch(pull, path) => pull == s.pull && s.selected == Some(path)
  }

  /** Nothing fails, and no answer comes late. */
  predicate IsTimely(s: State, e: Event) {
    !e.Fail? && (e.Answer? && e.k < |s.inflight| ==> IsCurrent(s, s.inflight[e.k]))
  }

  ghost predicate AllTimely(pull: nat, events: seq<Event>) {
    forall n :: 0 <= n < |events| ==> IsTimely(Run(pull, events[..n]), events[n])
  }

  /** The summary is under way; or the list is right, and the patch is right or under way. */
  ghost predicate OnItsWay(s: State) {
    || Summary(s.pull) in s.inflight
    || (Owned(s) && (Shows(s) || (s.selected.Some? && Patch(s.pull, s.selected.value) in s.inflight)))
  }

  lemma TaggedOwned(pull: nat, paths: seq<string>)
    ensures forall file <- Tagged(pull, paths) :: file.pull == pull
  {
  }

  lemma StillAsked(requests: seq<Request>, k: nat, request: Request)
    requires k < |requests| && request in requests && requests[k] != request
    ensures request in Without(requests, k)
  {
    var n :| 0 <= n < |requests| && requests[n] == request;
    assert n < k ==> Without(requests, k)[n] == request;
    assert n > k ==> Without(requests, k)[n - 1] == request;
  }

  lemma SelectedOnItsWay(s: State)
    requires Owned(s) || Summary(s.pull) in s.inflight
    ensures OnItsWay(Selected(s)) && OnItsWay(Draw(s))
  {
  }

  lemma AnswerOnItsWay(s: State, k: nat, paths: seq<string>)
    requires OnItsWay(s) && k < |s.inflight| && IsCurrent(s, s.inflight[k])
    ensures OnItsWay(Step(s, Answer(k, paths)))
  {
    hide Selected, Draw, Without, Fresh;
    var t := s.(inflight := Without(s.inflight, k));
    var request := s.inflight[k];
    if Summary(s.pull) in s.inflight && request != Summary(s.pull) {
      StillAsked(s.inflight, k, Summary(s.pull));
    }
    match request {
      case Summary(pull) =>
        TaggedOwned(pull, paths);
        SelectedOnItsWay(t.(files := Tagged(pull, paths), selected := Chosen(t.selected, paths)));
      case More(pull) =>
        TaggedOwned(pull, Fresh(s.files, paths));
        SelectedOnItsWay(t.(files := t.files + Tagged(pull, Fresh(t.files, paths))));
      case Patch(pull, path) =>
    }
  }

  lemma StepOnItsWay(s: State, e: Event)
    requires OnItsWay(s) && IsTimely(s, e)
    ensures OnItsWay(Step(s, e))
  {
    hide Draw;
    match e {
      case Mount =>
      case Choose(_) =>
      case Click(path) => SelectedOnItsWay(s.(selected := Some(path)));
      case ClickMore =>
      case Answer(k, paths) =>
        if k < |s.inflight| {
          AnswerOnItsWay(s, k, paths);
        }
    }
  }

  lemma {:induction false} RunOnItsWay(pull: nat, events: seq<Event>)
    requires AllTimely(pull, events)
    ensures OnItsWay(Run(pull, events))
  {
    hide Step, IsTimely;
    if events != [] {
      var init := events[..|events| - 1];
      forall n | 0 <= n < |init| ensures IsTimely(Run(pull, init[..n]), init[n]) {
        assert init[..n] == events[..n] && init[n] == events[n];
      }
      RunOnItsWay(pull, init);
      StepOnItsWay(Run(pull, init), events[|events| - 1]);
    }
  }

  /**
   When every answer was for what was selected when it came, then with all
   answered the list is of the selected pull request, and the patch on the page
   is the one of the selected file, under whose path a comment is submitted.
   */
  lemma AtRest(pull: nat, events: seq<Event>)
    requires AllTimely(pull, events) && Run(pull, events).inflight == []
    ensures Owned(Run(pull, events)) && Shows(Run(pull, events))
  {
    hide Run, AllTimely;
    RunOnItsWay(pull, events);
  }

  /**
   What a late answer does: a summary or a page puts files of another pull
   request on the list, unless it brings none that is new, and a patch is shown
   for a file that is not selected.
   */
  lemma LateExactly(s: State, k: nat, paths: seq<string>)
    requires k < |s.inflight|
    ensures var t, current := Step(s, Answer(k, paths)), IsCurrent(s, s.inflight[k]);
            match s.inflight[k]
            case Summary(_) => Owned(t) <==> current || paths == []
            case More(_) => Owned(s) ==> (Owned(t) <==> current || Fresh(s.files, paths) == [])
            case Patch(_, _) => Shows(t) <==> current
  {
    hide Fresh, Without;
    match s.inflight[k] {
      case Summary(pull) =>
        var files := Tagged(pull, paths);
        assert paths != [] ==> files[0] in files;
      case More(pull) =>
        var more := Tagged(pull, Fresh(s.files, paths));
        assert more != [] ==> more[0] in s.files + more;
      case Patch(_, _) =>
    }
  }

  // ----- two runs in which they do not

  lemma RunOne(pull: nat, events: seq<Event>, e: Event)
    ensures Run(pull, events + [e]) == Step(Run(pull, events), e)
  {
    hide Step;
    assert (events + [e])[..|events|] == events;
  }

  /** The first file is on the page. */
  function Opened(pull: nat, paths: seq<string>): State
    requires paths != []
  {
    State(pull, Tagged(pull, paths), Some(paths[0]), true, Some(Entry(pull, paths[0])), [])
  }

  lemma Opening(pull: nat, paths: seq<string>)
    requires paths != []
    ensures Run(pull, [Answer(0, paths), Answer(0, [])]) == Opened(pull, paths)
  {
    RunOne(pull, [], Answer(0, paths));
    RunOne(pull, [Answer(0, paths)], Answer(0, []));
    assert [] + [Answer(0, paths)] == [Answer(0, paths)];
    assert [Answer(0, paths)] + [Answer(0, [])] == [Answer(0, paths), Answer(0, [])];
    var t := Step(Init(pull), Answer(0, paths));
    assert Without([Summary(pull)], 0) == [];
    assert t.inflight == [] + [Patch(pull, paths[0])];
    assert Without([Patch(pull, paths[0])], 0) == [];
  }

  /**
   A page of files that was asked for the first pull request and comes when the
   second is on the page is appended to the list of the second.
   */
  lemma LatePage(first: nat, second: nat)
    requires first != second
    ensures var events := [Answer(0, ["a"]), Answer(0, []), ClickMore, Choose(second), Answer(1, ["b"]), Answer(1, []),
                           Answer(0, ["c"]), Answer(0, [])];
            var s := Run(first, events);
            s.inflight == [] && s.pull == second && s.files == [Entry(second, "b"), Entry(first, "c")]
  {
    hide Run, Step;
    Opening(first, ["a"]);
    var e1 := [Answer(0, ["a"]), Answer(0, [])];
    RunOne(first, e1, ClickMore);
    RunOne(first, e1 + [ClickMore], Choose(second));
    var e2 := e1 + [ClickMore] + [Choose(second)];
    RunOne(first, e2, Answer(1, ["b"]));
    RunOne(first, e2 + [Answer(1, ["b"])], Answer(1, []));
    var e3 := e2 + [Answer(1, ["b"])] + [Answer(1, [])];
    RunOne(first, e3, Answer(0, ["c"]));
    RunOne(first, e3 + [Answer(0, ["c"])], Answer(0, []));
    assert e3 + [Answer(0, ["c"])] + [Answer(0, [])]
        == [Answer(0, ["a"]), Answer(0, []), ClickMore, Choose(second), Answer(1, ["b"]), Answer(1, []),
            Answer(0, ["c"]), Answer(0, [])];
    ChosenSecond(first, second);
    PageComes(first, second);
  }

  lemma ChosenSecond(first: nat, second: nat)
    ensures var t := Step(Step(Opened(first, ["a"]), ClickMore), Choose(second));
            var u := Step(Step(t, Answer(1, ["b"])), Answer(1, []));
            u == State(second, [Entry(second, "b")], Some("b"), true, Some(Entry(second, "b")), [More(first)])
  {
    var t := Step(Step(Opened(first, ["a"]), ClickMore), Choose(second));
    assert t.inflight == [More(first), Summary(second)];
    assert Without([More(first), Summary(second)], 1) == [More(first)];
    var v := Step(t, Answer(1, ["b"]));
    assert v.inflight == [More(first), Patch(second, "b")];
    assert Without([More(first), Patch(second, "b")], 1) == [More(first)];
    assert Tagged(second, ["b"]) == [Entry(second, "b")];
  }

  lemma PageComes(first: nat, second: nat)
    ensures var u := State(second, [Entry(second, "b")], Some("b"), true, Some(Entry(second, "b")), [More(first)]);
            var w := Step(Step(u, Answer(0, ["c"])), Answer(0, []));
            w.inflight == [] && w.pull == second && w.files == [Entry(second, "b"), Entry(first, "c")]
  {
    var u := State(second, [Entry(second, "b")], Some("b"), true, Some(Entry(second, "b")), [More(first)]);
    assert Without([More(first)], 0) == [];
    assert !Listed(u.files, "c") && ["c"][1..] == [];
    assert Fresh(u.files, ["c"]) == ["c"] + Fresh(u.files, []);
    assert Tagged(first, ["c"]) == [Entry(first, "c")];
    var v := Step(u, Answer(0, ["c"]));
    assert v.inflight == [Patch(second, "b")];
    assert Without([Patch(second, "b")], 0) == [];
  }

  /**
   Two files are opened one after the other, and the first answer comes last:
   its patch stands on the page, and a comment goes to the path of the other.
   */
  lemma SwappedPatches(pull: nat)
    ensures var events := [Answer(0, ["a", "b"]), Answer(0, []), Click("b"), Click("a"), Answer(1, []), Answer(0, [])];
            var s := Run(pull, events);
            s.inflight == [] && s.selected == Some("a") && s.shown == Some(Entry(pull, "b"))
  {
    hide Run, Step;
    Opening(pull, ["a", "b"]);
    var e1 := [Answer(0, ["a", "b"]), Answer(0, [])];
    RunOne(pull, e1, Click("b"));
    RunOne(pull, e1 + [Click("b")], Click("a"));
    var e2 := e1 + [Click("b")] + [Click("a")];
    RunOne(pull, e2, Answer(1, []));
    RunOne(pull, e2 + [Answer(1, [])], Answer(0, []));
    assert e2 + [Answer(1, [])] + [Answer(0, [])]
        == [Answer(0, ["a", "b"]), Answer(0, []), Click("b"), Click("a"), Answer(1, []), Answer(0, [])];
    AnswersSwap(pull);
  }

  lemma AnswersSwap(pull: nat)
    ensures var t := Step(Step(Opened(pull, ["a", "b"]), Click("b")), Click("a"));
            var s := Step(Step(t, Answer(1, [])), Answer(0, []));
            s.inflight == [] && s.selected == Some("a") && s.shown == Some(Entry(pull, "b"))
  {
    var t := Step(Step(Opened(pull, ["a", "b"]), Click("b")), Click("a"));
    assert t.inflight == [Patch(pull, "b"), Patch(pull, "a")];
    assert Without([Patch(pull, "b"), Patch(pull, "a")], 1) == [Patch(pull, "b")];
    assert Without([Patch(pull, "b")], 0) == [];
  }
}
