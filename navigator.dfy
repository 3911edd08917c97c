/**
 * `AppNavigator`: the navigation container's state (readiness and the route
 * on screen) and the refetches of the player record, updated in place by the
 * navigation effect each time a new player record or quiz state arrives.
 */
module AppNavigator {
  import opened Wrappers
  import opened NavigationDecision

  class Navigator {
    var ready: bool
    var route: Option<Route>
    /** How many times `refetchPlayer()` was called. */
    var refetches: nat
    /** Every `navigate` and `reset` issued, in order. */
    var calls: seq<NavCall>

    constructor ()
      ensures !ready && route == None && refetches == 0 && calls == []
    {
      ready := false;
      route := None;
      refetches := 0;
      calls := [];
    }

    /** The container mounts on its initial route, Default. */
    method BecomeReady()
      modifies this
      ensures ready && route == Some(DefaultRoute)
      ensures refetches == old(refetches) && calls == old(calls)
    {
      ready := true;
      route := Some(DefaultRoute);
    }

    method Reset(r: Route)
      modifies this
      ensures route == Some(r) && calls == old(calls) + [NavCall.Reset(r)]
      ensures ready == old(ready) && refetches == old(refetches)
    {
      route := Some(r);
      calls := calls + [NavCall.Reset(r)];
    }

    method Navigate(r: Route)
      modifies this
      ensures route == Some(r) && calls == old(calls) + [NavCall.Navigate(r)]
      ensures ready == old(ready) && refetches == old(refetches)
    {
      route := Some(r);
      calls := calls + [NavCall.Navigate(r)];
    }

    /** The navigation effect, run with the latest player record and quiz state. */
    method OnSnapshot(player: Option<PlayerData>, quiz: Option<QuizState>)
      modifies this
      ensures var d := Decide(Snapshot(old(ready), player, quiz, NameOf(old(route))));
        && ready == old(ready)
        && route == RouteAfter(old(route), d.call)
        && calls == old(calls) + (if d.call == NoCall then [] else [d.call])
        && refetches == old(refetches) + (if d.refetch then 1 else 0)
    {
      if !ready {
        return;
      }
      if player.None? || quiz.None? {
        return;
      }
      var currentRoute := NameOf(route);
      if !player.value.isActive {
        if currentRoute != Some(Default) {
          Reset(DefaultRoute);
        }
        return;
      }
      var q := quiz.value;
      match q.state {
        case QuestionPre =>
          if currentRoute != Some(Prepare) {
            Navigate(PrepareRoute);
          }
        case QuestionOpen =>
          if currentRoute != Some(Question) {
            Reset(Route(Question, Some(QuestionParams(q.tierNumber, q.state))));
          }
        case BuyoutOpen =>
          if currentRoute != Some(Question) {
            Reset(Route(Question, Some(QuestionParams(q.tierNumber, q.state))));
          }
        case Idle =>
          RefetchAndGoHome();
        case QuestionClosed =>
          RefetchAndGoHome();
        case QuestionComplete =>
          RefetchAndGoHome();
        case BuyoutComplete =>
          RefetchAndGoHome();
        case Unlisted =>
      }
    }

    /** The completion branch: refetch the player, then reset to Default
        unless already there. */
    method RefetchAndGoHome()
      modifies this
      ensures refetches == old(refetches) + 1 && ready == old(ready)
      ensures var c := ResetUnlessOn(NameOf(old(route)), DefaultRoute);
        route == RouteAfter(old(route), c) && calls == old(calls) + (if c == NoCall then [] else [c])
    {
      refetches := refetches + 1;
      if NameOf(route) != Some(Default) {
        Reset(DefaultRoute);
      }
    }
  }

  /** A client: once the container is ready, an open question followed by the
      same closed state delivered twice issues one reset each way and
      refetches twice. */
  method RedeliveredRound(tier: Option<int>) returns (nav: Navigator)
    ensures nav.route == Some(DefaultRoute)
    ensures nav.calls == [NavCall.Reset(Route(Question, Some(QuestionParams(tier, QuestionOpen)))),
                          NavCall.Reset(DefaultRoute)]
    ensures nav.refetches == 2
  {
    nav := new Navigator();
    nav.BecomeReady();
    nav.OnSnapshot(Some(PlayerData(true)), Some(QuizState(QuestionOpen, tier)));
    nav.OnSnapshot(Some(PlayerData(true)), Some(QuizState(QuestionClosed, tier)));
    nav.OnSnapshot(Some(PlayerData(true)), Some(QuizState(QuestionClosed, tier)));
  }
}
