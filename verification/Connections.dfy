/**
 `Worker::add_server`, `next_connection` and `pop_connection` of src/worker.cpp: the
 discovery thread announces servers, the main loop serves them one after another.
 */
module Connections {
  import opened Names

  datatype ServerDetails = ServerDetails(address: string, workPort: nat, communicationPort: nat)

  /** What both threads see: the map of servers and the semaphore. */
  datatype Listing = Listing(servers: map<string, ServerDetails>, tokens: nat)

  function List(l: Listing, name: string, details: ServerDetails): Listing {
    l.(servers := l.servers[name := details])
  }

  function Unlist(l: Listing, name: string): Listing {
    l.(servers := l.servers - {name})
  }

  function Release(l: Listing): Listing {
    l.(tokens := l.tokens + 1)
  }

  function AcquireOne(l: Listing): Listing
    requires l.tokens > 0
  {
    l.(tokens := l.tokens - 1)
  }

  const EMPTY := Listing(map[], 0)

  /** Where the loop of `run_jobs` is. */
  datatype MainState =
    | Idle                   // before connectionSemaphore.acquire
    | Acquired               // after it, before reading the map
    | Serving(name: string)  // connected, before pop_connection

  /** `adding`: an `add_server` holds the mutex between insertion and release. */
  datatype State = State(listing: Listing, adding: bool, main: MainState)

  datatype Step =
    | Add(name: string, details: ServerDetails)
    | AddRelease
    | Acquire
    | Connect
    | PopConnection

  const START := State(EMPTY, false, Idle)

  /** The first entry of the map, of which there must be one. */
  ghost predicate First(servers: map<string, ServerDetails>, name: string) {
    IsLeast(name, servers.Keys)
  }

  /** When a step can be taken; the two assertions are not part of it. */
  predicate Enabled(s: State, step: Step) {
    match step
    case Add(_, _) => !s.adding
    case AddRelease => s.adding
    case Acquire => s.main == Idle && s.listing.tokens > 0
    case Connect => s.main == Acquired && !s.adding
    case PopConnection => s.main.Serving? && !s.adding
  }

  /** Reading or erasing `begin()` needs a non-empty map. */
  ghost predicate Next(s: State, step: Step, s': State) {
    && Enabled(s, step)
    && match step
       case Add(name, details) =>
         s' == if name in s.listing.servers then s
               else s.(listing := List(s.listing, name, details), adding := true)
       case AddRelease => s' == s.(listing := Release(s.listing), adding := false)
       case Acquire => s' == s.(listing := AcquireOne(s.listing), main := Acquired)
       case Connect =>
         s'.main.Serving? && (s.listing.servers != map[] ==> First(s.listing.servers, s'.main.name))
         && s' == s.(main := s'.main)
       case PopConnection =>
         if s.listing.servers == map[] then s' == s.(main := Idle)
         else exists name :: First(s.listing.servers, name)
                && s' == s.(listing := Unlist(s.listing, name), main := Idle)
  }

  ghost predicate Execution(states: seq<State>, steps: seq<Step>) {
    && |states| == |steps| + 1 && states[0] == START
    && forall i | 0 <= i < |steps| :: Next(states[i], steps[i], states[i + 1])
  }

  /** One token per server, save one on its way in and one on its way out. */
  predicate Agreement(s: State) {
    |s.listing.servers| == s.listing.tokens + (if s.adding then 1 else 0) + (if s.main == Idle then 0 else 1)
  }

  lemma StepKeepsAgreement(s: State, step: Step, s': State)
    requires Agreement(s) && Next(s, step, s')
    ensures Agreement(s')
  {
    if step == PopConnection && s.listing.servers != map[] {
      var name :| First(s.listing.servers, name) && s' == s.(listing := Unlist(s.listing, name), main := Idle);
      assert (s.listing.servers - {name}).Keys == s.listing.servers.Keys - {name};
    }
    if step.Add? && step.name !in s.listing.servers {
      assert s'.listing.servers.Keys == s.listing.servers.Keys + {step.name};
    }
  }

  /**
   In every interleaving the semaphore agrees with the map, so neither assertion that the
   map is not empty can fail.
   */
  lemma {:induction false} SemaphoreAgrees(states: seq<State>, steps: seq<Step>, i: nat)
    requires Execution(states, steps) && i < |states|
    ensures Agreement(states[i])
    ensures states[i].main != Idle ==> states[i].listing.servers != map[]
    decreases i
  {
    if i > 0 {
      SemaphoreAgrees(states, steps, i - 1);
      StepKeepsAgreement(states[i - 1], steps[i - 1], states[i]);
    }
  }

  /** The server being worked for stays in the map until it is popped. */
  lemma {:induction false} ServedIsListed(states: seq<State>, steps: seq<Step>, i: nat)
    requires Execution(states, steps) && i < |states| && states[i].main.Serving?
    ensures states[i].main.name in states[i].listing.servers
    decreases i
  {
    if i > 0 {
      SemaphoreAgrees(states, steps, i - 1);
      assert Next(states[i - 1], steps[i - 1], states[i]);
      if states[i - 1].main.Serving? { ServedIsListed(states, steps, i - 1); }
    }
  }

  /**
   `pop_connection` removes the server that was just worked for exactly when no server with
   an earlier name has been announced in the meantime.
   */
  lemma PopRemovesServed(states: seq<State>, steps: seq<Step>, i: nat)
    requires Execution(states, steps) && i < |steps| && steps[i] == PopConnection
    ensures states[i].main.Serving? && states[i].main.name in states[i].listing.servers
    ensures var served := states[i].main.name;
            states[i + 1].listing.servers == states[i].listing.servers - {served}
            <==> forall other | other in states[i].listing.servers && other != served :: !Before(other, served)
  {
    assert Next(states[i], steps[i], states[i + 1]);
    ServedIsListed(states, steps, i);
    var s, served := states[i], states[i].main.name;
    var name :| First(s.listing.servers, name) && states[i + 1] == s.(listing := Unlist(s.listing, name), main := Idle);
    BeforeIsTotal(name, served);
    BeforeIsStrict(name, served);
    assert served != name ==> served in s.listing.servers - {name};
    assert served == name ==> forall other | other in s.listing.servers && other != served :: Before(served, other);
    forall other | other in s.listing.servers && other != served
      ensures served == name ==> !Before(other, served)
    {
      BeforeIsStrict(other, served);
    }
  }

  /** Since when the server is being worked for. */
  lemma {:induction false} ServingSince(states: seq<State>, steps: seq<Step>, i: nat) returns (j: nat)
    requires Execution(states, steps) && i < |states| && states[i].main.Serving?
    ensures j < i && steps[j] == Connect
    ensures forall n | j < n <= i :: states[n].main == states[i].main
    decreases i
  {
    assert Next(states[i - 1], steps[i - 1], states[i]);
    if steps[i - 1] == Connect {
      j := i - 1;
    } else {
      j := ServingSince(states, steps, i - 1);
    }
  }

  /** What is listed now and was not then has been announced in between. */
  lemma {:induction false} AddedBetween(states: seq<State>, steps: seq<Step>, j: nat, i: nat, name: string)
    requires Execution(states, steps) && j <= i < |states|
    requires name !in states[j].listing.servers && name in states[i].listing.servers
    ensures exists n :: j <= n < i && steps[n].Add? && steps[n].name == name
    decreases i
  {
    assert i > j ==> Next(states[i - 1], steps[i - 1], states[i]);
    if i > j && name in states[i - 1].listing.servers {
      AddedBetween(states, steps, j, i - 1, name);
      var n :| j <= n < i - 1 && steps[n].Add? && steps[n].name == name;
      assert j <= n < i;
    }
  }

  /** Every earlier name listed at the pop was announced while the served one was worked for. */
  lemma EarlierNamesAreNew(states: seq<State>, steps: seq<Step>, i: nat) returns (j: nat)
    requires Execution(states, steps) && i < |steps| && steps[i] == PopConnection
    ensures j < i && steps[j] == Connect && states[i].main.Serving?
    ensures forall n | j < n <= i :: states[n].main == states[i].main
    ensures forall other | other in states[i].listing.servers && Before(other, states[i].main.name) ::
              && other !in states[j].listing.servers
              && exists n :: j < n < i && steps[n].Add? && steps[n].name == other
  {
    assert Next(states[i], steps[i], states[i + 1]);
    j := ServingSince(states, steps, i);
    assert Next(states[j], steps[j], states[j + 1]);
    SemaphoreAgrees(states, steps, j);
    var served := states[i].main.name;
    assert states[j + 1].main == states[i].main && First(states[j].listing.servers, served);
    forall other | other in states[i].listing.servers && Before(other, served)
      ensures other !in states[j].listing.servers
      ensures exists n :: j < n < i && steps[n].Add? && steps[n].name == other
    {
      BeforeIsStrict(other, served);
      assert states[j + 1].listing == states[j].listing;
      AddedBetween(states, steps, j + 1, i, other);
    }
  }

  /** A server announced under an earlier name is dropped unserved. */
  lemma EarlierNameIsDropped(details: ServerDetails)
    ensures var steps := [Add("b", details), AddRelease, Acquire, Connect, Add("a", details), AddRelease,
                          PopConnection];
            exists states: seq<State> :: Execution(states, steps) && states[4].main == Serving("b")
                             && states[7].listing == Listing(map["b" := details], 1)
  {
    var one, two := map["b" := details], map["b" := details, "a" := details];
    assert Before("a", "b") && "a" != "b" by { assert "a"[0] < "b"[0]; }
    var states := [START, State(Listing(one, 0), true, Idle), State(Listing(one, 1), false, Idle),
                   State(Listing(one, 0), false, Acquired), State(Listing(one, 0), false, Serving("b")),
                   State(Listing(two, 0), true, Serving("b")), State(Listing(two, 1), false, Serving("b")),
                   State(Listing(one, 1), false, Idle)];
    var steps := [Add("b", details), AddRelease, Acquire, Connect, Add("a", details), AddRelease, PopConnection];
    assert First(one, "b") && First(two, "a");
    assert two - {"a"} == one;
    forall i | 0 <= i < |steps|
      ensures Next(states[i], steps[i], states[i + 1])
    {
    }
    assert Execution(states, steps);
  }

  // ---------------------------------------------------------------- the class

  class Worker {
    var serverDetails: map<string, ServerDetails>
    var connectionSemaphore: nat

    function Shared(): Listing
      reads this
    {
      Listing(serverDetails, connectionSemaphore)
    }

    constructor ()
      ensures Shared() == EMPTY && serverDetails == map[] && connectionSemaphore == 0
    {
      serverDetails, connectionSemaphore := map[], 0;
    }

    /** A known name is dropped; a new one is worth one token. */
    method AddServer(name: string, details: ServerDetails)
      requires name != ""
      modifies this
      ensures Shared() == if name in old(serverDetails) then old(Shared())
                          else Release(List(old(Shared()), name, details))
      ensures name in old(serverDetails) ==>
                serverDetails == old(serverDetails) && connectionSemaphore == old(connectionSemaphore)
      ensures name !in old(serverDetails) ==>
                && serverDetails == old(serverDetails)[name := details]
                && connectionSemaphore == old(connectionSemaphore) + 1
    {
      if name in serverDetails {
        return;
      }
      serverDetails := serverDetails[name := details];
      connectionSemaphore := connectionSemaphore + 1;
    }

    /** Runs once the semaphore lets it; `Agreement` provides the entry to read. */
    method NextConnection() returns (name: string, details: ServerDetails)
      requires connectionSemaphore > 0 && serverDetails != map[]
      modifies `connectionSemaphore
      ensures Shared() == AcquireOne(old(Shared())) && connectionSemaphore == old(connectionSemaphore) - 1
      ensures First(serverDetails, name) && details == serverDetails[name]
    {
      connectionSemaphore := connectionSemaphore - 1;
      LeastExists(serverDetails.Keys);
      name :| name in serverDetails.Keys
              && forall y | y in serverDetails.Keys :: y == name || Before(name, y);
      details := serverDetails[name];
    }

    method PopConnection()
      requires serverDetails != map[]
      modifies `serverDetails
      ensures exists name :: First(old(serverDetails), name) && Shared() == Unlist(old(Shared()), name)
                && serverDetails == old(serverDetails) - {name}
    {
      LeastExists(serverDetails.Keys);
      var name :| name in serverDetails.Keys
                  && forall y | y in serverDetails.Keys :: y == name || Before(name, y);
      assert First(serverDetails, name);
      serverDetails := serverDetails - {name};
    }
  }

  /**
   The steps of the interleaving model, one call after the other, leave what the methods of the
   class leave; and where the main loop reads or pops, the methods' preconditions hold.
   */
  lemma StepsFollowWorker(states: seq<State>, steps: seq<Step>, i: nat)
    requires Execution(states, steps) && i < |steps|
    ensures var l, after := states[i].listing, states[i + 1].listing;
            match steps[i]
            case Add(name, details) =>
              after == (if name in l.servers then l else List(l, name, details))
              && (i + 1 < |steps| && steps[i + 1] == AddRelease ==>
                    states[i + 2].listing == Release(List(l, name, details)))
            case AddRelease => after == Release(l)
            case Acquire => l.tokens > 0 && after == AcquireOne(l)
            case Connect => l.servers != map[] && after == l && First(l.servers, states[i + 1].main.name)
            case PopConnection =>
              l.servers != map[] && exists name :: First(l.servers, name) && after == Unlist(l, name)
  {
    SemaphoreAgrees(states, steps, i);
    assert Next(states[i], steps[i], states[i + 1]);
    if i + 1 < |steps| && steps[i + 1] == AddRelease { assert Next(states[i + 1], steps[i + 1], states[i + 2]); }
  }
}
