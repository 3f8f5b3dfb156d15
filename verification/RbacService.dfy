/** Loading permissions: concurrent cache misses of one user share a single database query. */
module SingleFlight {
  import opened Results

  /** What a query ends with: permission codes for the success callbacks, or an error for the others. */
  datatype Outcome = Permissions(codes: set<string>) | Failure(error: string)

  /** Claimed by its leader, running in the database, answered, taken by forwardResult. */
  datatype Stage = Claimed | Running | Answered | Finished

  datatype Load = Load(user: int, stage: Stage, outcome: Outcome)

  /** A registered callback pair: its user, and the load it will be answered by. */
  datatype Request = Request(user: int, load: nat)

  /** Callbacks taken out of a slot and not yet called. */
  datatype Delivery = Delivery(load: nat, waiters: seq<nat>)

  datatype Call = Call(request: nat, outcome: Outcome)

  /** slots is g_inflight: the waiting requests of each user. */
  datatype Flights = Flights(
    slots: map<int, seq<nat>>, requests: seq<Request>, loads: seq<Load>, deliveries: seq<Delivery>, calls: seq<Call>)

  const UNKNOWN := Failure("")

  function Idle(): Flights { Flights(map[], [], [], [], []) }

  function Slot(f: Flights, user: int): seq<nat> { if user in f.slots then f.slots[user] else [] }

  /** The latest of the first n loads for the user. */
  function LatestLoad(loads: seq<Load>, n: nat, user: int): (l: Option<nat>)
    requires n <= |loads|
    ensures l.Some? ==> l.value < n && loads[l.value].user == user
  {
    if n == 0 then None
    else if loads[n - 1].user == user then Some(n - 1)
    else LatestLoad(loads, n - 1, user)
  }

  predicate Leads(f: Flights, user: int) { Slot(f, user) == [] }

  /** The locked part of loadFromDb: whoever finds the slot empty leads, that is, claims a load. */
  function Registered(f: Flights, user: int): Flights {
    var c := |f.requests|;
    var loads := if Leads(f, user) then f.loads + [Load(user, Claimed, UNKNOWN)] else f.loads;
    var latest := LatestLoad(loads, |loads|, user);
    f.(slots := f.slots[user := Slot(f, user) + [c]],
       loads := loads,
       requests := f.requests + [Request(user, if latest.Some? then latest.value else 0)])
  }

  /** doLoadFromDb: the leader hands its query to the database. */
  function Issued(f: Flights, l: nat): Flights
    requires l < |f.loads|
  {
    f.(loads := f.loads[l := f.loads[l].(stage := Running)])
  }

  function AnsweredWith(f: Flights, l: nat, outcome: Outcome): Flights
    requires l < |f.loads|
  {
    f.(loads := f.loads[l := f.loads[l].(stage := Answered, outcome := outcome)])
  }

  /** The locked part of forwardResult: the waiters leave the slot, the slot disappears. */
  function TakenBy(f: Flights, l: nat): Flights
    requires l < |f.loads|
  {
    var user := f.loads[l].user;
    f.(slots := f.slots - {user},
       loads := f.loads[l := f.loads[l].(stage := Finished)],
       deliveries := f.deliveries + [Delivery(l, Slot(f, user))])
  }

  /** The next callback of a delivery is called, outside the lock. */
  function Called(f: Flights, d: nat): Flights
    requires d < |f.deliveries| && f.deliveries[d].waiters != [] && f.deliveries[d].load < |f.loads|
  {
    var delivery := f.deliveries[d];
    f.(deliveries := f.deliveries[d := delivery.(waiters := delivery.waiters[1..])],
       calls := f.calls + [Call(delivery.waiters[0], f.loads[delivery.load].outcome)])
  }

  function CalledMany(f: Flights, d: nat, n: nat): (g: Flights)
    requires d < |f.deliveries| && n <= |f.deliveries[d].waiters| && f.deliveries[d].load < |f.loads|
    ensures g.loads == f.loads && |g.deliveries| == |f.deliveries|
    ensures g.deliveries[d] == f.deliveries[d].(waiters := f.deliveries[d].waiters[n..])
  {
    if n == 0 then f else Called(CalledMany(f, d, n - 1), d)
  }
}

module RbacService {
  import opened SingleFlight

  class Permissions {
    var inflight: map<int, seq<nat>>
    var requests: seq<Request>
    var loads: seq<Load>
    var deliveries: seq<SingleFlight.Delivery>
    var calls: seq<Call>

    function Contents(): Flights
      reads this
    {
      Flights(inflight, requests, loads, deliveries, calls)
    }

    constructor ()
      ensures Contents() == Idle()
    {
      inflight, requests, loads, deliveries, calls := map[], [], [], [], [];
    }

    /** Join the slot of the user; start a query only as its first waiter. */
    method LoadFromDb(user: int)
      modifies this
      ensures var f := Registered(old(Contents()), user);
              Contents() == if Leads(old(Contents()), user) then Issued(f, |f.loads| - 1) else f
      ensures var slot := if user in old(inflight) then old(inflight)[user] else [];
              && inflight == old(inflight)[user := slot + [|old(requests)|]]
              && |requests| == |old(requests)| + 1 && requests[..|old(requests)|] == old(requests)
              && requests[|old(requests)|].user == user
              && if slot == [] then |loads| == |old(loads)| + 1 && loads[..|old(loads)|] == old(loads)
                                    && loads[|old(loads)|].user == user && loads[|old(loads)|].stage == Running
                 else loads == old(loads)
      ensures calls == old(calls) && deliveries == old(deliveries)
    {
      var c := |requests|;
      var slot := if user in inflight then inflight[user] else [];
      var leader := slot == [];
      inflight := inflight[user := slot + [c]];
      if leader {
        loads := loads + [Load(user, Claimed, UNKNOWN)];
      }
      var latest := LatestLoad(loads, |loads|, user);
      requests := requests + [Request(user, if latest.Some? then latest.value else 0)];
      if leader {
        DoLoadFromDb(|loads| - 1);
      }
    }

    method DoLoadFromDb(l: nat)
      requires l < |loads|
      modifies `loads
      ensures Contents() == Issued(old(Contents()), l)
      ensures loads == old(loads)[l := old(loads[l]).(stage := Running)]
    {
      loads := loads[l := loads[l].(stage := Running)];
    }

    /** The database answers load l, and everyone waiting for its user is called with the answer. */
    method OnAnswer(l: nat, outcome: Outcome)
      requires l < |loads|
      modifies this
      ensures var f := TakenBy(AnsweredWith(old(Contents()), l, outcome), l);
              Contents() == CalledMany(f, |f.deliveries| - 1, |Slot(old(Contents()), old(loads[l].user))|)
      ensures calls == old(calls) + CallsWith(Slot(old(Contents()), old(loads[l].user)), outcome)
    {
      loads := loads[l := loads[l].(stage := Answered, outcome := outcome)];
      ForwardResult(l);
    }

    /** The slot is emptied first; then its waiters are called. */
    method ForwardResult(l: nat)
      requires l < |loads|
      modifies this
      ensures var f := TakenBy(old(Contents()), l);
              Contents() == CalledMany(f, |f.deliveries| - 1, |Slot(old(Contents()), old(loads[l].user))|)
      ensures calls == old(calls) + CallsWith(Slot(old(Contents()), old(loads[l].user)), old(loads[l].outcome))
    {
      var user, outcome := loads[l].user, loads[l].outcome;
      var waiters := if user in inflight then inflight[user] else [];
      inflight := inflight - {user};
      loads := loads[l := loads[l].(stage := Finished)];
      deliveries := deliveries + [SingleFlight.Delivery(l, waiters)];
      CallWaiters(|deliveries| - 1, waiters, outcome);
    }

    method CallWaiters(d: nat, waiters: seq<nat>, outcome: Outcome)
      requires d < |deliveries| && deliveries[d].load < |loads|
      requires deliveries[d].waiters == waiters && loads[deliveries[d].load].outcome == outcome
      modifies `calls, `deliveries
      ensures Contents() == CalledMany(old(Contents()), d, |waiters|)
      ensures calls == old(calls) + CallsWith(waiters, outcome)
    {
      for i := 0 to |waiters|
        invariant Contents() == CalledMany(old(Contents()), d, i)
        invariant calls == old(calls) + CallsWith(waiters, outcome)[..i]
      {
        calls := calls + [Call(waiters[i], outcome)];
        deliveries := deliveries[d := deliveries[d].(waiters := waiters[i + 1..])];
      }
    }
  }

  function CallsWith(waiters: seq<nat>, outcome: Outcome): seq<Call> {
    seq(|waiters|, k requires 0 <= k < |waiters| => Call(waiters[k], outcome))
  }
}
