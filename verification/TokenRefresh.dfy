// The response interceptor of the API client: one refresh at a time, everyone else waits.
// Each event runs to completion before the next one, as on the JavaScript event loop.
module TokenRefresh {
  import opened Domain

  // Every failed response that reaches the interceptor gets the next ticket.
  type Ticket = nat

  // A request keeps its identity, and its retry mark, when it is sent again.
  type Request = nat

  datatype Outcome = Renewed(token: string) | Refused(reason: string)

  datatype Settlement =
    | RetriedWith(token: string)
    | RejectedWith(reason: string)
    | RejectedAsIs

  datatype Settled = Settled(ticket: Ticket, result: Settlement)

  // What a ticket waits for: the refresh with this number, or nothing at all.
  datatype Wait = OnRefresh(number: nat) | OnNothing

  datatype State = State(
    isRefreshing: bool,
    failedQueue: seq<Ticket>,
    leader: Option<Ticket>,
    refreshToken: Option<string>,
    marked: set<Request>,
    starters: seq<Request>,
    waits: seq<Wait>,
    outcomes: seq<Outcome>,
    settled: seq<Settled>)

  datatype Event =
    | Unauthorized(request: Request)
    | RefreshSucceeds(access: string, refresh: string)
    | RefreshFails(reason: string)
    | SignIn(refresh: string)
    | SignOut

  const Idle: State := State(false, [], None, None, {}, [], [], [], [])

  function ResultOf(o: Outcome): Settlement {
    match o
    case Renewed(token) => RetriedWith(token)
    case Refused(reason) => RejectedWith(reason)
  }

  function SettleAll(queue: seq<Ticket>, result: Settlement): (r: seq<Settled>)
    ensures |r| == |queue| && forall i :: 0 <= i < |queue| ==> r[i] == Settled(queue[i], result)
  {
    seq(|queue|, i requires 0 <= i < |queue| => Settled(queue[i], result))
  }

  // The end of a refresh: the queue is processed in order, then the leader gets its own answer.
  function EndRefresh(s: State, o: Outcome): State
    requires s.leader.Some?
  {
    s.(isRefreshing := false, failedQueue := [], leader := None,
       refreshToken := if o.Renewed? then s.refreshToken else None,
       outcomes := s.outcomes + [o],
       settled := s.settled + SettleAll(s.failedQueue + [s.leader.value], ResultOf(o)))
  }

  // A request that has its one retry behind it, or finds nobody signed in, is rejected as it was.
  function Reject(s: State): State {
    s.(waits := s.waits + [OnNothing], settled := s.settled + [Settled(|s.waits|, RejectedAsIs)])
  }

  function Enqueue(s: State): State {
    s.(waits := s.waits + [OnRefresh(|s.outcomes|)], failedQueue := s.failedQueue + [|s.waits|])
  }

  function Lead(s: State, request: Request): State {
    s.(waits := s.waits + [OnRefresh(|s.outcomes|)], isRefreshing := true, leader := Some(|s.waits|),
       marked := s.marked + {request}, starters := s.starters + [request])
  }

  function Step(s: State, e: Event): State {
    match e
    case Unauthorized(request) =>
      if request in s.marked then Reject(s)
      else if s.isRefreshing then Enqueue(s)
      else if s.refreshToken.None? then Reject(s.(marked := s.marked + {request}))
      else Lead(s, request)
    case RefreshSucceeds(access, refresh) =>
      if s.leader.None? then s else EndRefresh(s, Renewed(access)).(refreshToken := Some(refresh))
    case RefreshFails(reason) => if s.leader.None? then s else EndRefresh(s, Refused(reason))
    case SignIn(refresh) => s.(refreshToken := Some(refresh))
    case SignOut => s.(refreshToken := None)
  }

  function Replay(s: State, events: seq<Event>): State
    decreases |events|
  {
    if events == [] then s else Replay(Step(s, events[0]), events[1..])
  }

  // ---- the accounts of all tickets ----

  function Tickets(settled: seq<Settled>): (r: seq<Ticket>)
    ensures |r| == |settled| && forall i :: 0 <= i < |settled| ==> r[i] == settled[i].ticket
  {
    seq(|settled|, i requires 0 <= i < |settled| => settled[i].ticket)
  }

  function Pending(s: State): seq<Ticket> {
    s.failedQueue + (if s.leader.Some? then [s.leader.value] else [])
  }

  function Issued(n: nat): (r: seq<Ticket>)
    ensures |r| == n && forall i :: 0 <= i < n ==> r[i] == i
  {
    seq(n, i requires 0 <= i < n => i)
  }

  predicate WaitsCorrectly(s: State, x: Settled) {
    && x.ticket < |s.waits|
    && match s.waits[x.ticket]
       case OnNothing => x.result.RejectedAsIs?
       case OnRefresh(k) => k < |s.outcomes| && x.result == ResultOf(s.outcomes[k])
  }

  // Everyone who still waits, waits for the refresh in flight.
  predicate PendingWaits(s: State) {
    forall t <- Pending(s) :: t < |s.waits| && s.waits[t] == OnRefresh(|s.outcomes|)
  }

  predicate SettledWaits(s: State) {
    forall x <- s.settled :: WaitsCorrectly(s, x)
  }

  // The requests that started a refresh are marked and differ from each other.
  predicate StartersOnce(s: State) {
    && |s.starters| == |s.outcomes| + (if s.leader.Some? then 1 else 0)
    && (forall i :: 0 <= i < |s.starters| ==> s.starters[i] in s.marked)
    && (forall i, j :: 0 <= i < j < |s.starters| ==> s.starters[i] != s.starters[j])
  }

  predicate Inv(s: State) {
    && (s.isRefreshing <==> s.leader.Some?)
    && (!s.isRefreshing ==> s.failedQueue == [])
    && StartersOnce(s)
    && multiset(Tickets(s.settled)) + multiset(Pending(s)) == multiset(Issued(|s.waits|))
    && PendingWaits(s)
    && SettledWaits(s)
  }

  lemma EndKeepsInv(s: State, o: Outcome)
    requires Inv(s) && s.leader.Some?
    ensures Inv(EndRefresh(s, o))
  {
    var t := EndRefresh(s, o);
    assert Pending(t) == [];
    assert Tickets(t.settled) == Tickets(s.settled) + Pending(s);
    forall x | x in t.settled ensures WaitsCorrectly(t, x) {
      if x in s.settled {
        assert WaitsCorrectly(s, x);
      } else {
        assert x.ticket in Pending(s);
      }
    }
  }

  lemma RejectKeepsAccounts(s: State)
    requires multiset(Tickets(s.settled)) + multiset(Pending(s)) == multiset(Issued(|s.waits|))
    ensures multiset(Tickets(Reject(s).settled)) + multiset(Pending(Reject(s))) == multiset(Issued(|s.waits| + 1))
  {
    assert Issued(|s.waits| + 1) == Issued(|s.waits|) + [|s.waits|];
    assert Tickets(Reject(s).settled) == Tickets(s.settled) + [|s.waits|];
    assert Pending(Reject(s)) == Pending(s);
  }

  lemma RejectKeepsInv(s: State)
    requires Inv(s)
    ensures Inv(Reject(s))
  {
    var t := Reject(s);
    RejectKeepsAccounts(s);
    assert PendingWaits(t) by {
      assert Pending(t) == Pending(s);
    }
    assert SettledWaits(t) by {
      hide Tickets, Issued, Pending, PendingWaits;
      forall x | x in t.settled ensures WaitsCorrectly(t, x) {
        if x in s.settled {
          assert WaitsCorrectly(s, x);
        }
      }
    }
    hide Tickets, Issued, Pending, PendingWaits, SettledWaits;
  }

  lemma SettledStaySettled(s: State, t: State)
    requires SettledWaits(s) && s.waits <= t.waits && t.outcomes == s.outcomes && t.settled == s.settled
    ensures SettledWaits(t)
  {
    forall x | x in t.settled ensures WaitsCorrectly(t, x) {
      assert WaitsCorrectly(s, x);
    }
  }

  lemma EnqueueKeepsInv(s: State)
    requires Inv(s) && s.isRefreshing
    ensures Inv(Enqueue(s))
  {
    var t := Enqueue(s);
    var n := |s.waits|;
    SettledStaySettled(s, t);
    assert Issued(n + 1) == Issued(n) + [n];
    assert Pending(t) == s.failedQueue + [n] + [s.leader.value];
    assert multiset(Pending(t)) == multiset(Pending(s)) + multiset{n};
    assert forall p <- Pending(t) :: p == n || p in Pending(s);
  }

  lemma LeadKeepsInv(s: State, request: Request)
    requires Inv(s) && !s.isRefreshing && request !in s.marked
    ensures Inv(Lead(s, request))
  {
    var t := Lead(s, request);
    var n := |s.waits|;
    SettledStaySettled(s, t);
    assert Issued(n + 1) == Issued(n) + [n];
    assert Pending(s) == [] && Pending(t) == [n];
  }

  lemma MarkIsApart(s: State, marked: set<Request>)
    requires Inv(s) && s.marked <= marked
    ensures Inv(s.(marked := marked))
  {
    var t := s.(marked := marked);
    SettledStaySettled(s, t);
    assert Pending(t) == Pending(s);
  }

  lemma UnauthorizedKeepsInv(s: State, request: Request)
    requires Inv(s)
    ensures Inv(Step(s, Unauthorized(request)))
  {
    if request in s.marked {
      RejectKeepsInv(s);
    } else if s.isRefreshing {
      EnqueueKeepsInv(s);
    } else if s.refreshToken.None? {
      MarkIsApart(s, s.marked + {request});
      RejectKeepsInv(s.(marked := s.marked + {request}));
    } else {
      LeadKeepsInv(s, request);
    }
  }

  lemma StepKeepsInv(s: State, e: Event)
    requires Inv(s)
    ensures Inv(Step(s, e))
  {
    match e
    case Unauthorized(request) => UnauthorizedKeepsInv(s, request);
    case RefreshSucceeds(access, refresh) =>
      if s.leader.Some? {
        EndKeepsInv(s, Renewed(access));
        TokenIsApart(EndRefresh(s, Renewed(access)), Some(refresh));
      }
    case RefreshFails(reason) =>
      if s.leader.Some? {
        EndKeepsInv(s, Refused(reason));
      }
    case SignIn(refresh) => TokenIsApart(s, Some(refresh));
    case SignOut => TokenIsApart(s, None);
  }

  lemma TokenIsApart(s: State, token: Option<string>)
    requires Inv(s)
    ensures Inv(s.(refreshToken := token))
  {
    var t := s.(refreshToken := token);
    assert Pending(t) == Pending(s);
    SettledStaySettled(s, t);
  }

  lemma {:induction false} ReplayKeepsInv(s: State, events: seq<Event>)
    requires Inv(s)
    ensures Inv(Replay(s, events))
    decreases |events|
  {
    if events != [] {
      StepKeepsInv(s, events[0]);
      hide Inv, Step;
      ReplayKeepsInv(Step(s, events[0]), events[1..]);
    }
  }

  // ---- main results ----

  // At every event boundary: a refresh is in flight exactly while the flag is set, and without
  // one nobody waits.
  lemma SingleFlight(events: seq<Event>)
    ensures var s := Replay(Idle, events);
            && (s.isRefreshing <==> s.leader.Some?)
            && (!s.isRefreshing ==> s.failedQueue == [] && Pending(s) == [])
  {
    ReplayKeepsInv(Idle, events);
  }

  // Every failed response is either still waiting, once, or settled, once; with no refresh in
  // flight all of them are settled.
  lemma SettledExactlyOnce(events: seq<Event>, ticket: Ticket)
    requires ticket < |Replay(Idle, events).waits|
    ensures var s := Replay(Idle, events);
            && multiset(Tickets(s.settled))[ticket] + multiset(Pending(s))[ticket] == 1
            && (!s.isRefreshing ==> multiset(Tickets(s.settled))[ticket] == 1)
  {
    ReplayKeepsInv(Idle, events);
    var n := |Replay(Idle, events).waits|;
    IssuedOnce(n, ticket);
  }

  lemma {:induction false} IssuedOnce(n: nat, ticket: Ticket)
    ensures multiset(Issued(n))[ticket] == if ticket < n then 1 else 0
    decreases n
  {
    if n > 0 {
      IssuedOnce(n - 1, ticket);
      assert Issued(n) == Issued(n - 1) + [n - 1];
    }
  }

  // A ticket that waited is settled with the outcome of the very refresh it waited on; one that
  // had already been retried, or found nobody signed in, is rejected as it was.
  lemma SettledByItsRefresh(events: seq<Event>, i: nat)
    requires i < |Replay(Idle, events).settled|
    ensures var s := Replay(Idle, events);
            var x := s.settled[i];
            && x.ticket < |s.waits|
            && match s.waits[x.ticket]
               case OnNothing => x.result == RejectedAsIs
               case OnRefresh(k) =>
                 && k < |s.outcomes|
                 && match s.outcomes[k]
                    case Renewed(token) => x.result == RetriedWith(token)
                    case Refused(reason) => x.result == RejectedWith(reason)
  {
    ReplayKeepsInv(Idle, events);
    assert Replay(Idle, events).settled[i] in Replay(Idle, events).settled;
  }

  // What was decided stays decided: settlements, outcomes and waits are only ever appended.
  lemma {:induction false} HistoryGrows(s: State, events: seq<Event>)
    ensures var t := Replay(s, events);
            s.settled <= t.settled && s.outcomes <= t.outcomes && s.waits <= t.waits
    decreases |events|
  {
    if events != [] {
      assert s.settled <= Step(s, events[0]).settled && s.outcomes <= Step(s, events[0]).outcomes && s.waits <= Step(s, events[0]).waits;
      hide Step;
      HistoryGrows(Step(s, events[0]), events[1..]);
    }
  }

  // No request starts two refreshes, whatever happens in between: all refreshes ever begun were
  // begun by different requests.
  lemma OneRefreshPerRequest(events: seq<Event>)
    ensures var s := Replay(Idle, events);
            && |s.starters| == |s.outcomes| + (if s.isRefreshing then 1 else 0)
            && forall i, j :: 0 <= i < j < |s.starters| ==> s.starters[i] != s.starters[j]
  {
    ReplayKeepsInv(Idle, events);
  }

  // Requests that fail while a refresh is in flight join the queue in order of arrival, and the
  // end of that refresh settles them in that order and the one that started it last.
  lemma QueueIsFirstInFirstOut(s: State, requests: seq<Request>, o: Outcome)
    requires Inv(s) && s.isRefreshing && (forall r <- requests :: r !in s.marked)
    ensures var t := Replay(s, Failures(requests));
            && t.leader == s.leader
            && t.failedQueue == s.failedQueue + seq(|requests|, i requires 0 <= i < |requests| => |s.waits| + i)
            && EndRefresh(t, o).settled == s.settled + SettleAll(t.failedQueue + [s.leader.value], ResultOf(o))
  {
    FailuresQueue(s, requests);
  }

  function Failures(requests: seq<Request>): seq<Event> {
    seq(|requests|, i requires 0 <= i < |requests| => Unauthorized(requests[i]))
  }

  lemma {:induction false} FailuresQueue(s: State, requests: seq<Request>)
    requires s.isRefreshing && s.leader.Some? && (forall r <- requests :: r !in s.marked)
    ensures var t := Replay(s, Failures(requests));
            && t.leader == s.leader && t.settled == s.settled
            && t.failedQueue == s.failedQueue + seq(|requests|, i requires 0 <= i < |requests| => |s.waits| + i)
    decreases |requests|
  {
    if requests != [] {
      var n := |requests|;
      assert requests[0] in requests;
      assert forall r <- requests[1..] :: r in requests;
      assert Failures(requests)[1..] == Failures(requests[1..]);
      var t := Enqueue(s);
      FailuresQueue(t, requests[1..]);
      assert seq(n, i requires 0 <= i < n => |s.waits| + i) ==
             [|s.waits|] + seq(n - 1, i requires 0 <= i < n - 1 => |t.waits| + i);
    } else {
      assert Failures(requests) == [];
    }
  }

  // The mark is put on the request that starts a refresh and not on those that wait: a waiter
  // that is refused again may wait again or start the next refresh itself.
  lemma WaiterMayWaitAgain(s: State, request: Request, access: string, refresh: string)
    requires Inv(s) && s.isRefreshing && request !in s.marked
    ensures var woken := Replay(s, [Unauthorized(request), RefreshSucceeds(access, refresh)]);
            && woken.settled != [] && Settled(|s.waits|, RetriedWith(access)) in woken.settled
            && Step(woken, Unauthorized(request)).isRefreshing
            && Last(Step(woken, Unauthorized(request)).starters) == Some(request)
  {
    var t := Enqueue(s);
    var woken := EndRefresh(t, Renewed(access)).(refreshToken := Some(refresh));
    assert [Unauthorized(request), RefreshSucceeds(access, refresh)][1..] == [RefreshSucceeds(access, refresh)];
    assert Replay(t, [RefreshSucceeds(access, refresh)]) == Replay(woken, []);
    assert Replay(s, [Unauthorized(request), RefreshSucceeds(access, refresh)]) == woken;
    var queue := t.failedQueue + [t.leader.value];
    assert queue[|s.failedQueue|] == |s.waits|;
    assert woken.settled[|s.settled| + |s.failedQueue|] == Settled(|s.waits|, RetriedWith(access));
    assert Step(woken, Unauthorized(request)) == Lead(woken, request);
    hide Inv, Step, Replay, EndRefresh, SettleAll;
  }

  function Last<T>(s: seq<T>): Option<T> {
    if s == [] then None else Some(s[|s| - 1])
  }

  // ---- what each event does ----

  // A request that has been retried is rejected; otherwise it joins the queue of a refresh in
  // flight, is marked and rejected when nobody is signed in, or is marked and starts a refresh.
  lemma UnauthorizedMeans(s: State, request: Request)
    ensures var t := Step(s, Unauthorized(request));
            var ticket := |s.waits|;
            if request in s.marked then
              t == s.(waits := s.waits + [OnNothing], settled := s.settled + [Settled(ticket, RejectedAsIs)])
            else if s.isRefreshing then
              t == s.(waits := s.waits + [OnRefresh(|s.outcomes|)], failedQueue := s.failedQueue + [ticket])
            else if s.refreshToken == None then
              t == s.(waits := s.waits + [OnNothing], settled := s.settled + [Settled(ticket, RejectedAsIs)],
                      marked := s.marked + {request})
            else
              t == s.(waits := s.waits + [OnRefresh(|s.outcomes|)], isRefreshing := true, leader := Some(ticket),
                      marked := s.marked + {request}, starters := s.starters + [request])
  {
  }

  // The end of a refresh settles the queue in order and then its starter: all with the new token,
  // which is kept together with the new refresh token, or all with the reason of the refusal,
  // and then nobody is signed in any more.
  lemma RefreshEndMeans(s: State, access: string, refresh: string, reason: string)
    requires s.leader.Some?
    ensures var all := s.failedQueue + [s.leader.value];
            var good, bad := Step(s, RefreshSucceeds(access, refresh)), Step(s, RefreshFails(reason));
            && |good.settled| == |s.settled| + |all| && good.settled[..|s.settled|] == s.settled
            && (forall i :: 0 <= i < |all| ==> good.settled[|s.settled| + i] == Settled(all[i], RetriedWith(access)))
            && good == s.(isRefreshing := false, failedQueue := [], leader := None, refreshToken := Some(refresh),
                          outcomes := s.outcomes + [Renewed(access)], settled := good.settled)
            && |bad.settled| == |s.settled| + |all| && bad.settled[..|s.settled|] == s.settled
            && (forall i :: 0 <= i < |all| ==> bad.settled[|s.settled| + i] == Settled(all[i], RejectedWith(reason)))
            && bad == s.(isRefreshing := false, failedQueue := [], leader := None, refreshToken := None,
                         outcomes := s.outcomes + [Refused(reason)], settled := bad.settled)
  {
  }

  // ---- the module variables and the interceptor ----

  class ApiClient {
    var isRefreshing: bool
    var failedQueue: seq<Ticket>
    var leader: Option<Ticket>
    var refreshToken: Option<string>
    var marked: set<Request>
    var starters: seq<Request>
    var waits: seq<Wait>
    var outcomes: seq<Outcome>
    var settled: seq<Settled>

    constructor ()
      ensures View() == Idle
    {
      isRefreshing, failedQueue, leader, refreshToken := false, [], None, None;
      marked, starters, waits, outcomes, settled := {}, [], [], [], [];
    }

    function View(): State
      reads this
    {
      State(isRefreshing, failedQueue, leader, refreshToken, marked, starters, waits, outcomes, settled)
    }

    // The interceptor on a 401, up to the point where it awaits; true when it starts a refresh.
    method OnUnauthorized(request: Request) returns (starts: bool)
      requires Inv(View())
      modifies this
      ensures View() == Step(old(View()), Unauthorized(request)) && Inv(View())
      ensures starts <==> !old(isRefreshing) && isRefreshing
    {
      UnauthorizedKeepsInv(View(), request);
      UnauthorizedMeans(View(), request);
      hide Inv, Step;
      var ticket := |waits|;
      if request !in marked {
        if isRefreshing {
          waits := waits + [OnRefresh(|outcomes|)];
          failedQueue := failedQueue + [ticket];
          return false;
        }
        marked := marked + {request};
        isRefreshing := true;
        if refreshToken.None? {
          isRefreshing := false;
        } else {
          waits := waits + [OnRefresh(|outcomes|)];
          leader := Some(ticket);
          starters := starters + [request];
          return true;
        }
      }
      waits := waits + [OnNothing];
      settled := settled + [Settled(ticket, RejectedAsIs)];
      starts := false;
    }

    method ProcessQueue(o: Outcome)
      modifies this`settled, this`failedQueue
      ensures failedQueue == [] && settled == old(settled) + SettleAll(old(failedQueue), ResultOf(o))
    {
      for i := 0 to |failedQueue|
        invariant failedQueue == old(failedQueue)
        invariant settled == old(settled) + SettleAll(old(failedQueue)[..i], ResultOf(o))
      {
        match o
        case Renewed(token) => settled := settled + [Settled(failedQueue[i], RetriedWith(token))];
        case Refused(reason) => settled := settled + [Settled(failedQueue[i], RejectedWith(reason))];
        assert SettleAll(old(failedQueue)[..i + 1], ResultOf(o)) ==
               SettleAll(old(failedQueue)[..i], ResultOf(o)) + [Settled(failedQueue[i], ResultOf(o))];
      }
      assert failedQueue[..|failedQueue|] == failedQueue;
      failedQueue := [];
    }

    method SettleLeader(o: Outcome)
      requires leader.Some?
      modifies this
      ensures View() == EndRefresh(old(View()), o)
    {
      ghost var queue, lead := failedQueue, leader.value;
      ProcessQueue(o);
      settled := settled + [Settled(leader.value, ResultOf(o))];
      assert SettleAll(queue + [lead], ResultOf(o)) == SettleAll(queue, ResultOf(o)) + [Settled(lead, ResultOf(o))];
      outcomes := outcomes + [o];
      leader := None;
      if o.Refused? {
        refreshToken := None;
      }
      isRefreshing := false;
    }

    method OnRefreshSucceeds(access: string, refresh: string)
      requires Inv(View()) && isRefreshing
      modifies this
      ensures View() == Step(old(View()), RefreshSucceeds(access, refresh)) && Inv(View())
      ensures !isRefreshing && failedQueue == []
    {
      StepKeepsInv(View(), RefreshSucceeds(access, refresh));
      SettleLeader(Renewed(access));
      refreshToken := Some(refresh);
    }

    method OnRefreshFails(reason: string)
      requires Inv(View()) && isRefreshing
      modifies this
      ensures View() == Step(old(View()), RefreshFails(reason)) && Inv(View())
      ensures !isRefreshing && failedQueue == []
    {
      StepKeepsInv(View(), RefreshFails(reason));
      SettleLeader(Refused(reason));
    }
  }
}
