/** Every interleaving of registrations, queries, answers and callbacks. */
module FlightRuns {
  import opened Results
  import opened SingleFlight
  import opened Counting

  datatype Event =
    | Register(user: int)
    | Issue(load: nat)
    | Answer(load: nat, outcome: Outcome)
    | Take(load: nat)
    | Callback(delivery: nat)

  predicate Enabled(f: Flights, e: Event) {
    match e
    case Register(_) => true
    case Issue(l) => l < |f.loads| && f.loads[l].stage == Claimed
    case Answer(l, _) => l < |f.loads| && f.loads[l].stage == Running
    case Take(l) => l < |f.loads| && f.loads[l].stage == Answered
    case Callback(d) =>
      d < |f.deliveries| && f.deliveries[d].waiters != [] && f.deliveries[d].load < |f.loads|
  }

  function Apply(f: Flights, e: Event): Flights {
    if !Enabled(f, e) then f
    else
      match e
      case Register(user) => Registered(f, user)
      case Issue(l) => Issued(f, l)
      case Answer(l, outcome) => AnsweredWith(f, l, outcome)
      case Take(l) => TakenBy(f, l)
      case Callback(d) => Called(f, d)
  }

  function After(events: seq<Event>, n: nat): Flights
    requires n <= |events|
  {
    if n == 0 then Idle() else Apply(After(events, n - 1), events[n - 1])
  }

  // ---- The invariant ----

  predicate Pending(f: Flights, l: nat) { l < |f.loads| && f.loads[l].stage != Finished }

  /** A slot exists, with a waiter in it, exactly while a load of the user is pending; that load is the
      user's latest. */
  ghost predicate UserOk(f: Flights, user: int) {
    var latest := LatestLoad(f.loads, |f.loads|, user);
    && (user in f.slots <==> latest.Some? && Pending(f, latest.value))
    && (user in f.slots ==> f.slots[user] != [])
  }

  /** Only the latest load of a user can be pending. */
  ghost predicate LoadOk(f: Flights, l: nat)
    requires l < |f.loads|
  {
    Pending(f, l) ==> LatestLoad(f.loads, |f.loads|, f.loads[l].user) == Some(l)
  }

  /** Waiters are requests of that user for that load. */
  ghost predicate WaitersOk(f: Flights, waiters: seq<nat>, user: int, load: nat) {
    forall i | 0 <= i < |waiters| ::
      waiters[i] < |f.requests| && f.requests[waiters[i]] == Request(user, load)
  }

  ghost predicate SlotOk(f: Flights, user: int)
    requires user in f.slots
  {
    var latest := LatestLoad(f.loads, |f.loads|, user);
    latest.Some? && WaitersOk(f, f.slots[user], user, latest.value)
  }

  ghost predicate DeliveryOk(f: Flights, d: Delivery) {
    && d.load < |f.loads| && f.loads[d.load].stage == Finished
    && WaitersOk(f, d.waiters, f.loads[d.load].user, d.load)
  }

  /** A call went to a request and carried the outcome of its load. */
  ghost predicate CallOk(f: Flights, c: Call) {
    && c.request < |f.requests|
    && var l := f.requests[c.request].load;
       l < |f.loads| && f.loads[l].stage == Finished && f.loads[l].outcome == c.outcome
  }

  ghost predicate Matched(f: Flights) {
    && (forall user: int :: UserOk(f, user))
    && (forall l: nat | l < |f.loads| :: LoadOk(f, l))
    && (forall user | user in f.slots :: SlotOk(f, user))
    && (forall d | 0 <= d < |f.deliveries| :: DeliveryOk(f, f.deliveries[d]))
    && (forall k | 0 <= k < |f.calls| :: CallOk(f, f.calls[k]))
  }

  // ---- Lookups ----

  lemma {:induction false} LatestPrefix(loads: seq<Load>, x: Load, n: nat, user: int)
    requires n <= |loads|
    ensures LatestLoad(loads + [x], n, user) == LatestLoad(loads, n, user)
  {
    if n > 0 {
      LatestPrefix(loads, x, n - 1, user);
    }
  }

  lemma LatestAdded(loads: seq<Load>, x: Load, user: int)
    ensures LatestLoad(loads + [x], |loads| + 1, user) ==
            if x.user == user then Some(|loads|) else LatestLoad(loads, |loads|, user)
  {
    LatestPrefix(loads, x, |loads|, user);
  }

  lemma {:induction false} LatestUpdated(loads: seq<Load>, l: nat, x: Load, n: nat, user: int)
    requires l < |loads| && n <= |loads| && x.user == loads[l].user
    ensures LatestLoad(loads[l := x], n, user) == LatestLoad(loads, n, user)
  {
    if n > 0 {
      LatestUpdated(loads, l, x, n - 1, user);
    }
  }

  // ---- Registering ----

  lemma RegisteredUserOk(f: Flights, user: int, u: int)
    requires UserOk(f, user) && UserOk(f, u)
    ensures UserOk(Registered(f, user), u)
  {
    LatestAdded(f.loads, Load(user, Claimed, UNKNOWN), u);
  }

  lemma RegisteredLoadOk(f: Flights, user: int, l: nat)
    requires UserOk(f, user) && l < |Registered(f, user).loads| && (l < |f.loads| ==> LoadOk(f, l))
    ensures LoadOk(Registered(f, user), l)
  {
    LatestAdded(f.loads, Load(user, Claimed, UNKNOWN), Registered(f, user).loads[l].user);
  }

  lemma RegisteredSlotOk(f: Flights, user: int, u: int)
    requires UserOk(f, user) && u in Registered(f, user).slots && (u in f.slots ==> SlotOk(f, u))
    ensures SlotOk(Registered(f, user), u)
  {
    LatestAdded(f.loads, Load(user, Claimed, UNKNOWN), u);
  }

  lemma RegisteredMatched(f: Flights, user: int)
    requires Matched(f)
    ensures Matched(Registered(f, user))
  {
    var g := Registered(f, user);
    forall u: int ensures UserOk(g, u) { RegisteredUserOk(f, user, u); }
    forall l: nat | l < |g.loads| ensures LoadOk(g, l) { RegisteredLoadOk(f, user, l); }
    forall u | u in g.slots ensures SlotOk(g, u) { RegisteredSlotOk(f, user, u); }
    forall d | 0 <= d < |g.deliveries| ensures DeliveryOk(g, g.deliveries[d]) {
      assert DeliveryOk(f, f.deliveries[d]);
    }
    forall k | 0 <= k < |g.calls| ensures CallOk(g, g.calls[k]) {
      assert CallOk(f, f.calls[k]);
    }
  }

  // ---- Moving a load along ----

  /** A pending load moves on but stays pending. */
  lemma MovedMatched(f: Flights, l: nat, x: Load)
    requires Matched(f) && Pending(f, l) && x.user == f.loads[l].user && x.stage != Finished
    ensures Matched(f.(loads := f.loads[l := x]))
  {
    var g := f.(loads := f.loads[l := x]);
    forall u: int ensures UserOk(g, u) {
      assert UserOk(f, u);
      LatestUpdated(f.loads, l, x, |f.loads|, u);
    }
    forall k: nat | k < |g.loads| ensures LoadOk(g, k) {
      assert LoadOk(f, k);
      LatestUpdated(f.loads, l, x, |f.loads|, f.loads[k].user);
    }
    forall u | u in g.slots ensures SlotOk(g, u) {
      assert SlotOk(f, u);
      LatestUpdated(f.loads, l, x, |f.loads|, u);
    }
    forall d | 0 <= d < |g.deliveries| ensures DeliveryOk(g, g.deliveries[d]) {
      assert DeliveryOk(f, f.deliveries[d]);
    }
    forall k | 0 <= k < |g.calls| ensures CallOk(g, g.calls[k]) {
      assert CallOk(f, f.calls[k]);
    }
  }

  /** What the lock protects when a load finishes: its user has a slot, and it is that slot's load. */
  lemma TakenFacts(f: Flights, l: nat)
    requires Matched(f) && Pending(f, l)
    ensures var user := f.loads[l].user;
            user in f.slots && LatestLoad(f.loads, |f.loads|, user) == Some(l) && WaitersOk(f, f.slots[user], user, l)
  {
    assert LoadOk(f, l) && UserOk(f, f.loads[l].user);
    assert SlotOk(f, f.loads[l].user);
  }

  lemma TakenUserOk(f: Flights, l: nat, u: int)
    requires Matched(f) && Pending(f, l)
    ensures UserOk(TakenBy(f, l), u)
  {
    TakenFacts(f, l);
    assert UserOk(f, u);
    LatestUpdated(f.loads, l, f.loads[l].(stage := Finished), |f.loads|, u);
  }

  lemma TakenSlotOk(f: Flights, l: nat, u: int)
    requires Matched(f) && Pending(f, l) && u in TakenBy(f, l).slots
    ensures SlotOk(TakenBy(f, l), u)
  {
    assert SlotOk(f, u);
    LatestUpdated(f.loads, l, f.loads[l].(stage := Finished), |f.loads|, u);
  }

  lemma TakenDeliveryOk(f: Flights, l: nat, d: nat)
    requires Matched(f) && Pending(f, l) && d < |TakenBy(f, l).deliveries|
    ensures DeliveryOk(TakenBy(f, l), TakenBy(f, l).deliveries[d])
  {
    TakenFacts(f, l);
    if d < |f.deliveries| {
      assert DeliveryOk(f, f.deliveries[d]);
    }
  }

  lemma TakenMatched(f: Flights, l: nat)
    requires Matched(f) && Pending(f, l)
    ensures Matched(TakenBy(f, l))
  {
    var g := TakenBy(f, l);
    forall u: int ensures UserOk(g, u) { TakenUserOk(f, l, u); }
    forall k: nat | k < |g.loads| ensures LoadOk(g, k) {
      assert LoadOk(f, k);
      LatestUpdated(f.loads, l, f.loads[l].(stage := Finished), |f.loads|, f.loads[k].user);
    }
    forall u | u in g.slots ensures SlotOk(g, u) { TakenSlotOk(f, l, u); }
    forall d | 0 <= d < |g.deliveries| ensures DeliveryOk(g, g.deliveries[d]) { TakenDeliveryOk(f, l, d); }
    forall k | 0 <= k < |g.calls| ensures CallOk(g, g.calls[k]) {
      assert CallOk(f, f.calls[k]);
    }
  }

  lemma CalledMatched(f: Flights, d: nat)
    requires Matched(f) && Enabled(f, Callback(d))
    ensures Matched(Called(f, d))
  {
    var g := Called(f, d);
    assert DeliveryOk(f, f.deliveries[d]);
    forall u: int ensures UserOk(g, u) { assert UserOk(f, u); }
    forall l: nat | l < |g.loads| ensures LoadOk(g, l) { assert LoadOk(f, l); }
    forall u | u in g.slots ensures SlotOk(g, u) { assert SlotOk(f, u); }
    forall k | 0 <= k < |g.deliveries| ensures DeliveryOk(g, g.deliveries[k]) {
      assert DeliveryOk(f, f.deliveries[k]);
    }
    forall k | 0 <= k < |g.calls| ensures CallOk(g, g.calls[k]) {
      if k < |f.calls| {
        assert CallOk(f, f.calls[k]);
      }
    }
  }

  lemma ApplyKeepsMatched(f: Flights, e: Event)
    requires Matched(f)
    ensures Matched(Apply(f, e))
  {
    if Enabled(f, e) {
      match e
      case Register(user) => RegisteredMatched(f, user);
      case Issue(l) => MovedMatched(f, l, f.loads[l].(stage := Running));
      case Answer(l, outcome) => MovedMatched(f, l, f.loads[l].(stage := Answered, outcome := outcome));
      case Take(l) => TakenMatched(f, l);
      case Callback(d) => CalledMatched(f, d);
    }
  }

  lemma {:induction false} EveryRunIsMatched(events: seq<Event>, n: nat)
    requires n <= |events|
    ensures Matched(After(events, n))
  {
    if n > 0 {
      EveryRunIsMatched(events, n - 1);
      ApplyKeepsMatched(After(events, n - 1), events[n - 1]);
    }
  }

  /** At most one query per user is under way. */
  lemma OneLoadPerUser(events: seq<Event>, n: nat, l: nat, k: nat)
    requires n <= |events|
    requires Pending(After(events, n), l) && Pending(After(events, n), k)
    requires After(events, n).loads[l].user == After(events, n).loads[k].user
    ensures l == k
  {
    EveryRunIsMatched(events, n);
    assert LoadOk(After(events, n), l) && LoadOk(After(events, n), k);
  }

  /** A slot exists exactly while a query of its user is pending, and then somebody waits in it. */
  lemma SlotExactlyWhilePending(events: seq<Event>, n: nat, user: int)
    requires n <= |events|
    ensures var f := After(events, n);
            && (user in f.slots <==> exists l: nat :: Pending(f, l) && f.loads[l].user == user)
            && (user in f.slots ==> f.slots[user] != [])
  {
    EveryRunIsMatched(events, n);
    var f := After(events, n);
    assert UserOk(f, user);
    if l: nat :| Pending(f, l) && f.loads[l].user == user {
      assert LoadOk(f, l);
    }
  }

  // ---- Each callback pair is called exactly once ----

  ghost function Undelivered(deliveries: seq<Delivery>, n: nat, c: nat): nat
    requires n <= |deliveries|
  {
    if n == 0 then 0 else Undelivered(deliveries, n - 1, c) + Copies(deliveries[n - 1].waiters, c)
  }

  ghost function CallsTo(calls: seq<Call>, n: nat, c: nat): nat
    requires n <= |calls|
  {
    if n == 0 then 0 else CallsTo(calls, n - 1, c) + if calls[n - 1].request == c then 1 else 0
  }

  /** Where request c of the user is: waiting in the slot, about to be called, called. */
  ghost function Places(f: Flights, user: int, c: nat): nat {
    Copies(Slot(f, user), c) + Undelivered(f.deliveries, |f.deliveries|, c) + CallsTo(f.calls, |f.calls|, c)
  }

  ghost predicate RequestOk(f: Flights, c: nat)
    requires c < |f.requests|
  {
    Places(f, f.requests[c].user, c) == 1
  }

  lemma {:induction false} UndeliveredPrefix(deliveries: seq<Delivery>, x: Delivery, n: nat, c: nat)
    requires n <= |deliveries|
    ensures Undelivered(deliveries + [x], n, c) == Undelivered(deliveries, n, c)
  {
    if n > 0 {
      UndeliveredPrefix(deliveries, x, n - 1, c);
    }
  }

  lemma {:induction false} UndeliveredUpdated(deliveries: seq<Delivery>, d: nat, x: Delivery, n: nat, c: nat)
    requires d < |deliveries| && n <= |deliveries|
    ensures Undelivered(deliveries[d := x], n, c) ==
            Undelivered(deliveries, n, c)
              + if d < n then Copies(x.waiters, c) - Copies(deliveries[d].waiters, c) else 0
  {
    if n > 0 {
      UndeliveredUpdated(deliveries, d, x, n - 1, c);
    }
  }

  lemma {:induction false} CallsPrefix(calls: seq<Call>, x: Call, n: nat, c: nat)
    requires n <= |calls|
    ensures CallsTo(calls + [x], n, c) == CallsTo(calls, n, c)
  {
    if n > 0 {
      CallsPrefix(calls, x, n - 1, c);
    }
  }

  /** A request that is yet to come is nowhere. */
  lemma {:induction false} FreshIsUndeliveredNowhere(f: Flights, n: nat)
    requires Matched(f) && n <= |f.deliveries|
    ensures Undelivered(f.deliveries, n, |f.requests|) == 0
  {
    if n > 0 {
      FreshIsUndeliveredNowhere(f, n - 1);
      assert DeliveryOk(f, f.deliveries[n - 1]);
      CopyExists(f.deliveries[n - 1].waiters, |f.requests|);
    }
  }

  lemma {:induction false} FreshIsUncalled(f: Flights, n: nat)
    requires Matched(f) && n <= |f.calls|
    ensures CallsTo(f.calls, n, |f.requests|) == 0
  {
    if n > 0 {
      FreshIsUncalled(f, n - 1);
      assert CallOk(f, f.calls[n - 1]);
    }
  }

  lemma FreshIsNowhere(f: Flights, user: int)
    requires Matched(f)
    ensures Places(f, user, |f.requests|) == 0
  {
    FreshIsUndeliveredNowhere(f, |f.deliveries|);
    FreshIsUncalled(f, |f.calls|);
    CopyExists(Slot(f, user), |f.requests|);
    if user in f.slots {
      assert SlotOk(f, user);
    }
  }

  lemma RegisterKeepsRequest(f: Flights, user: int, c: nat)
    requires Matched(f) && c <= |f.requests| && (c < |f.requests| ==> RequestOk(f, c))
    ensures RequestOk(Registered(f, user), c)
  {
    FreshIsNowhere(f, user);
    CopiesJoined(Slot(f, user), [|f.requests|], c);
    CopiesOfOne(|f.requests|, c);
  }

  lemma TakeKeepsRequest(f: Flights, l: nat, c: nat)
    requires Matched(f) && Pending(f, l) && c < |f.requests| && RequestOk(f, c)
    ensures RequestOk(TakenBy(f, l), c)
  {
    TakenFacts(f, l);
    var waiters := Slot(f, f.loads[l].user);
    UndeliveredPrefix(f.deliveries, Delivery(l, waiters), |f.deliveries|, c);
    CopyExists(waiters, c);
    CopyExists([], c);
  }

  lemma CallKeepsRequest(f: Flights, d: nat, c: nat)
    requires Enabled(f, Callback(d)) && c < |f.requests| && RequestOk(f, c)
    ensures RequestOk(Called(f, d), c)
  {
    var delivery := f.deliveries[d];
    var x := delivery.(waiters := delivery.waiters[1..]);
    assert delivery.waiters == [delivery.waiters[0]] + x.waiters;
    CopiesJoined([delivery.waiters[0]], x.waiters, c);
    CopiesOfOne(delivery.waiters[0], c);
    UndeliveredUpdated(f.deliveries, d, x, |f.deliveries|, c);
    CallsPrefix(f.calls, Call(delivery.waiters[0], f.loads[delivery.load].outcome), |f.calls|, c);
  }

  lemma ApplyKeepsRequest(f: Flights, e: Event, c: nat)
    requires Matched(f) && c < |Apply(f, e).requests| && (c < |f.requests| ==> RequestOk(f, c))
    ensures RequestOk(Apply(f, e), c)
  {
    if Enabled(f, e) {
      match e
      case Register(user) => RegisterKeepsRequest(f, user, c);
      case Issue(_) =>
      case Answer(_, _) =>
      case Take(l) => TakeKeepsRequest(f, l, c);
      case Callback(d) => CallKeepsRequest(f, d, c);
    }
  }

  /** In every run each registered callback pair is in exactly one place: waiting, about to be called,
      or called. */
  lemma {:induction false} EveryRequestIsInOnePlace(events: seq<Event>, n: nat, c: nat)
    requires n <= |events| && c < |After(events, n).requests|
    ensures RequestOk(After(events, n), c)
  {
    if n > 0 {
      EveryRunIsMatched(events, n - 1);
      var f := After(events, n - 1);
      if c < |f.requests| {
        EveryRequestIsInOnePlace(events, n - 1, c);
      }
      ApplyKeepsRequest(f, events[n - 1], c);
    }
  }

  lemma {:induction false} CallIsCounted(calls: seq<Call>, n: nat, i: nat)
    requires i < n <= |calls|
    ensures CallsTo(calls, n, calls[i].request) >= 1
  {
    if i < n - 1 {
      CallIsCounted(calls, n - 1, i);
    }
  }

  lemma {:induction false} TwoCallsAreCounted(calls: seq<Call>, n: nat, i: nat, j: nat)
    requires i < j < n <= |calls| && calls[i].request == calls[j].request
    ensures CallsTo(calls, n, calls[i].request) >= 2
  {
    if j < n - 1 {
      TwoCallsAreCounted(calls, n - 1, i, j);
    } else {
      CallIsCounted(calls, n - 1, i);
    }
  }

  /** Nobody is called twice. */
  lemma CalledAtMostOnce(events: seq<Event>, n: nat, i: nat, j: nat)
    requires n <= |events| && i < j < |After(events, n).calls|
    ensures After(events, n).calls[i].request != After(events, n).calls[j].request
  {
    EveryRunIsMatched(events, n);
    var f := After(events, n);
    assert CallOk(f, f.calls[i]);
    EveryRequestIsInOnePlace(events, n, f.calls[i].request);
    if f.calls[i].request == f.calls[j].request {
      TwoCallsAreCounted(f.calls, |f.calls|, i, j);
    }
  }

  ghost predicate Quiet(f: Flights) {
    && (forall l: nat | l < |f.loads| :: f.loads[l].stage == Finished)
    && (forall d | 0 <= d < |f.deliveries| :: f.deliveries[d].waiters == [])
  }

  lemma {:induction false} QuietMeansDelivered(f: Flights, n: nat, c: nat)
    requires Quiet(f) && n <= |f.deliveries|
    ensures Undelivered(f.deliveries, n, c) == 0
  {
    if n > 0 {
      QuietMeansDelivered(f, n - 1, c);
      CopyExists([], c);
    }
  }

  /** When all queries are answered and all callbacks made, everybody has been called exactly once. */
  lemma QuietMeansAllCalled(events: seq<Event>, n: nat, c: nat)
    requires n <= |events| && Quiet(After(events, n)) && c < |After(events, n).requests|
    ensures CallsTo(After(events, n).calls, |After(events, n).calls|, c) == 1
  {
    EveryRunIsMatched(events, n);
    var f := After(events, n);
    EveryRequestIsInOnePlace(events, n, c);
    QuietMeansDelivered(f, |f.deliveries|, c);
    assert UserOk(f, f.requests[c].user);
    CopyExists([], c);
  }

  /** The load that a request joins is its user's and still unfinished at that moment. */
  lemma JoinedLoadIsPending(events: seq<Event>, n: nat, user: int)
    requires n <= |events|
    ensures var f := After(events, n);
            var g := Registered(f, user);
            var request := g.requests[|f.requests|];
            && request.user == user && Pending(g, request.load) && g.loads[request.load].user == user
            && (Leads(f, user) <==> |g.loads| == |f.loads| + 1)
  {
    EveryRunIsMatched(events, n);
    var f := After(events, n);
    RegisteredMatched(f, user);
    assert UserOk(f, user);
    assert UserOk(Registered(f, user), user);
  }

  /** Requests and finished loads are history: nothing changes them. */
  lemma {:induction false} HistoryStays(events: seq<Event>, n: nat, m: nat)
    requires n <= m <= |events|
    ensures After(events, n).requests <= After(events, m).requests
    ensures |After(events, n).loads| <= |After(events, m).loads|
    ensures forall l: nat | l < |After(events, n).loads| && After(events, n).loads[l].stage == Finished ::
              After(events, m).loads[l] == After(events, n).loads[l]
  {
    if n < m {
      HistoryStays(events, n, m - 1);
      StepKeepsHistory(After(events, m - 1), events[m - 1]);
    }
  }

  lemma StepKeepsHistory(f: Flights, e: Event)
    ensures f.requests <= Apply(f, e).requests && |f.loads| <= |Apply(f, e).loads|
    ensures forall l: nat | l < |f.loads| && f.loads[l].stage == Finished :: Apply(f, e).loads[l] == f.loads[l]
  {
  }

  /** Every call carries the outcome of the load its request joined. */
  lemma CallsCarryTheJoinedOutcome(events: seq<Event>, n: nat, i: nat)
    requires n <= |events| && i < |After(events, n).calls|
    ensures CallOk(After(events, n), After(events, n).calls[i])
  {
    EveryRunIsMatched(events, n);
  }

  /** A callback registered by event n is only ever called with the outcome of a load of its own user
      that was still unfinished when it registered. */
  lemma CallAnswersAPendingLoad(events: seq<Event>, n: nat, m: nat, i: nat)
    requires n < m <= |events| && events[n].Register? && i < |After(events, m).calls|
    requires After(events, m).calls[i].request == |After(events, n).requests|
    ensures var joined := After(events, n + 1);
            var l := joined.requests[|After(events, n).requests|].load;
            && Pending(joined, l) && joined.loads[l].user == events[n].user
            && l < |After(events, m).loads| && After(events, m).calls[i].outcome == After(events, m).loads[l].outcome
  {
    JoinedLoadIsPending(events, n, events[n].user);
    HistoryStays(events, n + 1, m);
    CallsCarryTheJoinedOutcome(events, m, i);
  }

  /** From its claim a query can always run to its end, and its end is the same for everybody who has joined
      by then: the slot is gone, its waiters are due for the outcome, all of them and in their order. */
  lemma LoadRunsToItsEnd(events: seq<Event>, n: nat, l: nat, outcome: Outcome)
    requires n <= |events| && l < |After(events, n).loads| && After(events, n).loads[l].stage == Claimed
    ensures var f := After(events, n);
            var user := f.loads[l].user;
            var g := Apply(Apply(Apply(f, Issue(l)), Answer(l, outcome)), Take(l));
            && user in f.slots && f.slots[user] != []
            && g.loads == f.loads[l := Load(user, Finished, outcome)]
            && g.slots == f.slots - {user}
            && g.deliveries == f.deliveries + [Delivery(l, f.slots[user])]
            && g.requests == f.requests && g.calls == f.calls
  {
    EveryRunIsMatched(events, n);
    var f := After(events, n);
    assert LoadOk(f, l) && UserOk(f, f.loads[l].user);
    var f1 := Apply(f, Issue(l));
    var f2 := Apply(f1, Answer(l, outcome));
    assert f1.loads[l] == Load(f.loads[l].user, Running, f.loads[l].outcome);
    assert f2.loads[l] == Load(f.loads[l].user, Answered, outcome) && f2.loads == f.loads[l := f2.loads[l]];
  }

  /** A delivery under way can always make its next call: to its first waiter, with the load's outcome. */
  lemma NextWaiterIsCalled(events: seq<Event>, n: nat, d: nat)
    requires n <= |events| && d < |After(events, n).deliveries| && After(events, n).deliveries[d].waiters != []
    ensures var f := After(events, n);
            var delivery := f.deliveries[d];
            var g := Apply(f, Callback(d));
            && delivery.load < |f.loads|
            && g.calls == f.calls + [Call(delivery.waiters[0], f.loads[delivery.load].outcome)]
            && g.deliveries == f.deliveries[d := Delivery(delivery.load, delivery.waiters[1..])]
  {
    EveryRunIsMatched(events, n);
    assert DeliveryOk(After(events, n), After(events, n).deliveries[d]);
  }
}
