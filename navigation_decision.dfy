/**
 * The decision of the app navigator's effect: from the latest snapshot of
 * the navigation container, the player record and the quiz state, which
 * navigation call to issue and whether the player record is refetched.
 * The connection status of the quiz feed is not an input.
 */
module NavigationDecision {
  import opened Wrappers

  datatype RouteName = Default | Prepare | Question | Admin

  /** `quizState.state`; `Unlisted` stands for any other string the server sends. */
  datatype Phase =
    | Idle | QuestionPre | QuestionOpen | QuestionClosed | QuestionComplete
    | BuyoutOpen | BuyoutComplete | Unlisted

  datatype QuizState = QuizState(state: Phase, tierNumber: Option<int>)
  datatype PlayerData = PlayerData(isActive: bool)

  /** The parameters a Question route is reset with. */
  datatype QuestionParams = QuestionParams(tierNumber: Option<int>, state: Phase)
  datatype Route = Route(name: RouteName, params: Option<QuestionParams>)

  /** A call on the navigation container: none, a soft `navigate`, or a
      destructive `reset` to a stack holding the one given route. */
  datatype NavCall = NoCall | Navigate(route: Route) | Reset(route: Route)

  datatype Decision = Decision(call: NavCall, refetch: bool)

  datatype Snapshot = Snapshot(
    ready: bool,                 // `navigationRef.current?.isReady()`
    player: Option<PlayerData>,  // `playerData`
    quiz: Option<QuizState>,     // `quizState`
    current: Option<RouteName>   // `getCurrentRoute()?.name`
  )

  predicate IsCompletion(p: Phase)
  {
    p == Idle || p == QuestionClosed || p == QuestionComplete || p == BuyoutComplete
  }

  predicate IsOpen(p: Phase)
  {
    p == QuestionOpen || p == BuyoutOpen
  }

  const DefaultRoute := Route(Default, None)
  const PrepareRoute := Route(Prepare, None)

  /** Resets to `r` unless the current route already has its name. */
  function ResetUnlessOn(current: Option<RouteName>, r: Route): (c: NavCall)
    ensures c == NoCall <==> current == Some(r.name)
    ensures c != NoCall ==> c == Reset(r)
  {
    if current != Some(r.name) then Reset(r) else NoCall
  }

  /** The body of the navigation effect. */
  function Decide(s: Snapshot): (d: Decision)
    ensures d.refetch ==> s.ready && s.player.Some? && s.quiz.Some?
    ensures d.call.Navigate? ==> d.call.route == PrepareRoute
  {
    if !s.ready || s.player.None? || s.quiz.None? then Decision(NoCall, false)
    else if !s.player.value.isActive then Decision(ResetUnlessOn(s.current, DefaultRoute), false)
    else
      var q := s.quiz.value;
      match q.state
      case QuestionPre =>
        Decision(if s.current != Some(Prepare) then Navigate(PrepareRoute) else NoCall, false)
      case QuestionOpen =>
        Decision(ResetUnlessOn(s.current, Route(Question, Some(QuestionParams(q.tierNumber, q.state)))), false)
      case BuyoutOpen =>
        Decision(ResetUnlessOn(s.current, Route(Question, Some(QuestionParams(q.tierNumber, q.state)))), false)
      case Idle => Decision(ResetUnlessOn(s.current, DefaultRoute), true)
      case QuestionClosed => Decision(ResetUnlessOn(s.current, DefaultRoute), true)
      case QuestionComplete => Decision(ResetUnlessOn(s.current, DefaultRoute), true)
      case BuyoutComplete => Decision(ResetUnlessOn(s.current, DefaultRoute), true)
      case Unlisted => Decision(NoCall, false)
  }

  /** The route a call leaves the container on. */
  function RouteAfter(current: Option<Route>, c: NavCall): (r: Option<Route>)
    ensures c == NoCall ==> r == current
    ensures c != NoCall ==> r == Some(c.route)
  {
    match c
    case NoCall => current
    case Navigate(r) => Some(r)
    case Reset(r) => Some(r)
  }

  function NameOf(r: Option<Route>): Option<RouteName>
  {
    match r
    case None => None
    case Some(route) => Some(route.name)
  }

  predicate Complete(s: Snapshot)
  {
    s.ready && s.player.Some? && s.quiz.Some?
  }

  // ---------------------------------------------------------------------
  // The decision table
  // ---------------------------------------------------------------------

  /** Without a ready container, a player record and a quiz state nothing happens. */
  lemma MissingPrerequisite(s: Snapshot)
    ensures Decide(s) != Decision(NoCall, false) ==> Complete(s)
    ensures !Complete(s) ==> Decide(s) == Decision(NoCall, false)
  {
  }

  /** An inactive player is reset to Default in every phase, unless already
      there, and is never refetched. */
  lemma InactivePlayer(s: Snapshot)
    requires Complete(s) && !s.player.value.isActive
    ensures !Decide(s).refetch
    ensures s.current != Some(Default) <==> Decide(s).call == Reset(DefaultRoute)
    ensures s.current == Some(Default) <==> Decide(s).call == NoCall
  {
  }

  /** QUESTION_PRE: a soft navigate to Prepare, only when not already there;
      never a reset and never a refetch. */
  lemma PreparePhase(s: Snapshot)
    requires Complete(s) && s.player.value.isActive && s.quiz.value.state == QuestionPre
    ensures !Decide(s).refetch && !Decide(s).call.Reset?
    ensures s.current != Some(Prepare) <==> Decide(s).call == Navigate(PrepareRoute)
    ensures s.current == Some(Prepare) <==> Decide(s).call == NoCall
  {
  }

  /** QUESTION_OPEN and BUYOUT_OPEN: a reset to one Question route carrying the
      snapshot's tier and phase, only when not already on Question; no refetch. */
  lemma OpenPhase(s: Snapshot)
    requires Complete(s) && s.player.value.isActive && IsOpen(s.quiz.value.state)
    ensures var q := s.quiz.value;
      && !Decide(s).refetch && !Decide(s).call.Navigate?
      && (s.current != Some(Question) <==>
            Decide(s).call == Reset(Route(Question, Some(QuestionParams(q.tierNumber, q.state)))))
      && (s.current == Some(Question) <==> Decide(s).call == NoCall)
  {
  }

  /** The completion phases always refetch, and reset to Default only when
      not already there. */
  lemma CompletionPhase(s: Snapshot)
    requires Complete(s) && s.player.value.isActive && IsCompletion(s.quiz.value.state)
    ensures Decide(s).refetch
    ensures s.current != Some(Default) <==> Decide(s).call == Reset(DefaultRoute)
    ensures s.current == Some(Default) <==> Decide(s).call == NoCall
  {
  }

  /** Any other phase: neither navigation nor refetch. */
  lemma UnlistedPhase(s: Snapshot)
    requires Complete(s) && s.player.value.isActive && s.quiz.value.state == Unlisted
    ensures Decide(s) == Decision(NoCall, false)
  {
  }

  /** A refetch happens exactly for an active player in a completion phase. */
  lemma RefetchExactly(s: Snapshot)
    ensures Decide(s).refetch <==>
      Complete(s) && s.player.value.isActive && IsCompletion(s.quiz.value.state)
  {
  }

  /** Admin is never a target. */
  lemma AdminNeverTarget(s: Snapshot)
    ensures Decide(s).call != NoCall ==> Decide(s).call.route.name != Admin
  {
  }

  /** Applying a snapshot's decision and then deciding on the same snapshot
      again issues no further navigation; only the refetch repeats. */
  lemma Idempotent(s: Snapshot, current: Option<Route>)
    requires s.current == NameOf(current)
    ensures var d := Decide(s);
      var again := Decide(s.(current := NameOf(RouteAfter(current, d.call))));
      again.call == NoCall && again.refetch == d.refetch
  {
  }

  // ---------------------------------------------------------------------
  // Traces of snapshots
  // ---------------------------------------------------------------------

  /** The routes a ready container passes through while the player record and
      the quiz feed deliver the given snapshots, one after the other. */
  function Routes(current: Option<Route>, player: PlayerData, quiz: seq<QuizState>): (rs: seq<Option<Route>>)
    ensures |rs| == |quiz|
    decreases |quiz|
  {
    if quiz == [] then []
    else
      var d := Decide(Snapshot(true, Some(player), Some(quiz[0]), NameOf(current)));
      var next := RouteAfter(current, d.call);
      [next] + Routes(next, player, quiz[1..])
  }

  /** The calls issued along the same trace. */
  function Calls(current: Option<Route>, player: PlayerData, quiz: seq<QuizState>): (cs: seq<NavCall>)
    ensures |cs| == |quiz|
    decreases |quiz|
  {
    if quiz == [] then []
    else
      var d := Decide(Snapshot(true, Some(player), Some(quiz[0]), NameOf(current)));
      [d.call] + Calls(RouteAfter(current, d.call), player, quiz[1..])
  }

  /** Starting anywhere but Admin, no trace ever reaches Admin. */
  lemma {:induction false} NeverReachesAdmin(current: Option<Route>, player: PlayerData, quiz: seq<QuizState>)
    requires NameOf(current) != Some(Admin)
    ensures forall i :: 0 <= i < |quiz| ==> NameOf(Routes(current, player, quiz)[i]) != Some(Admin)
    decreases |quiz|
  {
    if quiz != [] {
      var s := Snapshot(true, Some(player), Some(quiz[0]), NameOf(current));
      AdminNeverTarget(s);
      var next := RouteAfter(current, Decide(s).call);
      NeverReachesAdmin(next, player, quiz[1..]);
      assert Routes(current, player, quiz) == [next] + Routes(next, player, quiz[1..]);
    }
  }

  /** Delivering the same quiz state twice in a row issues at most one call. */
  lemma RepeatedSnapshot(current: Option<Route>, player: PlayerData, q: QuizState)
    ensures Calls(current, player, [q, q])[1] == NoCall
  {
  }

  /** An active player going through IDLE, QUESTION_PRE, QUESTION_OPEN,
      QUESTION_CLOSED and IDLE from Default visits Default, Prepare,
      Question, Default and Default, the last step issuing no call. */
  lemma RoundTrace(tier: Option<int>)
    ensures var quiz := [QuizState(Idle, tier), QuizState(QuestionPre, tier),
                         QuizState(QuestionOpen, tier), QuizState(QuestionClosed, tier),
                         QuizState(Idle, tier)];
      var rs := Routes(Some(DefaultRoute), PlayerData(true), quiz);
      var cs := Calls(Some(DefaultRoute), PlayerData(true), quiz);
      && NameOf(rs[0]) == Some(Default) && NameOf(rs[1]) == Some(Prepare)
      && NameOf(rs[2]) == Some(Question) && NameOf(rs[3]) == Some(Default)
      && NameOf(rs[4]) == Some(Default)
      && cs == [NoCall, Navigate(PrepareRoute),
                Reset(Route(Question, Some(QuestionParams(tier, QuestionOpen)))),
                Reset(DefaultRoute), NoCall]
  {
    var p := PlayerData(true);
    var quiz := [QuizState(Idle, tier), QuizState(QuestionPre, tier),
                 QuizState(QuestionOpen, tier), QuizState(QuestionClosed, tier),
                 QuizState(Idle, tier)];
    var r0 := Some(DefaultRoute);
    var r1 := Some(PrepareRoute);
    var r2 := Some(Route(Question, Some(QuestionParams(tier, QuestionOpen))));
    assert Routes(r0, p, quiz[4..]) == [r0];
    assert Routes(r0, p, quiz[3..]) == [r0, r0];
    assert Routes(r2, p, quiz[2..]) == [r2, r0, r0];
    assert Routes(r1, p, quiz[1..]) == [r1, r2, r0, r0] by {
      assert quiz[1..][1..] == quiz[2..];
    }
    assert Routes(r0, p, quiz) == [r0, r1, r2, r0, r0];
    assert Calls(r0, p, quiz[4..]) == [NoCall];
    assert Calls(r2, p, quiz[3..]) == [Reset(DefaultRoute), NoCall];
    assert Calls(r1, p, quiz[2..]) == [Reset(r2.value), Reset(DefaultRoute), NoCall] by {
      assert quiz[2..][1..] == quiz[3..];
    }
    assert Calls(r0, p, quiz[1..]) == [Navigate(PrepareRoute), Reset(r2.value), Reset(DefaultRoute), NoCall] by {
      assert quiz[1..][1..] == quiz[2..];
    }
    assert Calls(r0, p, quiz) == [NoCall] + Calls(r0, p, quiz[1..]);
  }
}
