/** One destination client (a Maloja scrobbler): the state the orchestration
    reads and changes, the predicates it asks, and the operations it calls.
    How a destination decides its time window, its duplicate test and its
    answers over the network is not part of this model: the first two are a
    `Profile` fixed when the client is built, the network answers are
    parameters of the operations. */
module Destination {
  import opened Common
  import opened JsValues

  /** One listen, as the play object's `data` carries it. */
  datatype Play = Play(
    artists: seq<string>,
    title: string,
    album: Option<string>,
    duration: Option<nat>,
    playDate: int)    // unix seconds

  /** What a destination's own code decides and the orchestration only asks:
      whether it needs auth, which play dates fall in its time window, and
      when a play matches an entry of its recent history. */
  datatype Profile = Profile(
    gated: bool,
    inFrame: int -> bool,
    sameScrobble: (Play, Play) -> bool)

  /** Everything about one client the orchestration can observe. */
  datatype ClientState = ClientState(
    profile: Profile,
    initialized: bool,
    authed: bool,
    scrobbling: bool,
    reachable: bool,
    authEligible: bool,
    lastCheckedAt: int,
    deadLetter: seq<Play>,
    recent: seq<Play>)

  /** The client operations the orchestration invokes, in the order it invokes them. */
  datatype Call = RefreshCall | DeliverCall(play: Play) | TestAuthCall | DrainCall | MonitorCall

  /** What the destination answers to a history refresh. */
  datatype Fetch = Fetched(history: seq<Play>, at: int) | FetchThrows(error: string)

  /** What happens to one delivery: accepted, rejected (the client queues the
      play as a dead letter) or an exception out of the client. */
  datatype Delivery = Accepted | Rejected | DeliveryThrows(error: string)

  /** What an auth test finds out, or the exception it raises. */
  datatype AuthResponse = AuthAnswer(authed: bool, reachable: bool) | AuthThrows(error: string)

  /** Which queued plays the destination now accepts, or the exception a drain raises. */
  datatype DrainResponse = Redeliver(accepts: Play -> bool) | DrainThrows(error: string)

  // The questions the orchestration asks a client.

  predicate TimeFrameIsValid(s: ClientState, playDate: int) {
    s.profile.inFrame(playDate)
  }

  predicate AlreadyScrobbled(s: ClientState, p: Play) {
    exists q :: q in s.recent && s.profile.sameScrobble(p, q)
  }

  /** Ready only when initialized, reachable and authenticated or not auth-gated. */
  predicate Ready(s: ClientState) {
    s.initialized && s.reachable && (!s.profile.gated || s.authed)
  }

  predicate AuthGated(s: ClientState) {
    s.profile.gated
  }

  predicate CanTryAuth(s: ClientState) {
    s.authEligible
  }

  // What each operation does to the state.

  function Refreshed(s: ClientState, f: Fetch): ClientState {
    match f
    case Fetched(history, at) => s.(recent := history, lastCheckedAt := at)
    case FetchThrows(_) => s
  }

  function Delivered(s: ClientState, p: Play, d: Delivery): ClientState {
    if d.Rejected? then s.(deadLetter := s.deadLetter + [p]) else s
  }

  function AfterAuth(s: ClientState, a: AuthResponse): ClientState {
    match a
    case AuthAnswer(authed, reachable) => s.(authed := authed, reachable := reachable)
    case AuthThrows(_) => s
  }

  function Drained(s: ClientState, d: DrainResponse): ClientState {
    match d
    case Redeliver(accepts) => s.(deadLetter := Remaining(s.deadLetter, accepts))
    case DrainThrows(_) => s
  }

  /** The dead letters that stay queued after one redelivery round: exactly
      the entries the destination still refuses, in queue order. */
  function Remaining(queue: seq<Play>, accepts: Play -> bool): (r: seq<Play>)
    ensures |r| <= |queue|
    ensures forall p :: p in r ==> p in queue && !accepts(p)
    ensures forall p :: p in queue && !accepts(p) ==> p in r
  {
    if queue == [] then []
    else (if accepts(queue[0]) then [] else [queue[0]]) + Remaining(queue[1..], accepts)
  }

  /** Draining keeps FIFO order: the survivors of a queue are the survivors
      of its front followed by the survivors of its back. */
  lemma {:induction false} RemainingKeepsOrder(front: seq<Play>, back: seq<Play>, accepts: Play -> bool)
    ensures Remaining(front + back, accepts) == Remaining(front, accepts) + Remaining(back, accepts)
  {
    if front == [] {
      assert front + back == back;
    } else {
      assert (front + back)[1..] == front[1..] + back;
      RemainingKeepsOrder(front[1..], back, accepts);
    }
  }

  /** A property of the drain as modelled here, where each play's acceptance
      is one fixed answer: a second round against the same answers changes
      nothing. */
  lemma {:induction false} RemainingIdempotent(queue: seq<Play>, accepts: Play -> bool)
    ensures Remaining(Remaining(queue, accepts), accepts) == Remaining(queue, accepts)
  {
    if queue != [] {
      var head := if accepts(queue[0]) then [] else [queue[0]];
      RemainingKeepsOrder(head, Remaining(queue[1..], accepts), accepts);
      RemainingIdempotent(queue[1..], accepts);
      if !accepts(queue[0]) {
        assert Remaining(head, accepts) == head by {
          assert head[1..] == [];
        }
      }
    }
  }

  /** A client object. Its observable state is `State()`; `calls` records,
      for the proofs only, which operations were invoked on it. */
  class Client {
    const name: string
    const config: Value
    const profile: Profile
    var initialized: bool
    var authed: bool
    var scrobbling: bool
    var reachable: bool
    var authEligible: bool
    var lastCheckedAt: int
    var deadLetter: seq<Play>
    var recent: seq<Play>
    ghost var calls: seq<Call>

    function State(): (s: ClientState)
      reads this
      ensures s.profile == profile && s.lastCheckedAt == lastCheckedAt
    {
      ClientState(profile, initialized, authed, scrobbling, reachable, authEligible,
                  lastCheckedAt, deadLetter, recent)
    }

    /** A client just built from its configuration: nothing initialized,
        authenticated or monitored yet, both queues empty. */
    constructor (name: string, config: Value, profile: Profile, now: int)
      ensures this.name == name && this.config == config && this.profile == profile
      ensures State() == ClientState(profile, false, false, false, false, false, now, [], [])
      ensures calls == []
    {
      this.name, this.config, this.profile := name, config, profile;
      initialized, authed, scrobbling, reachable, authEligible := false, false, false, false, false;
      lastCheckedAt, deadLetter, recent := now, [], [];
      calls := [];
    }

    predicate IsReady() reads this { Ready(State()) }

    predicate IsAuthGated() reads this { AuthGated(State()) }

    predicate IsAuthRetryAllowed() reads this { CanTryAuth(State()) }

    predicate IsInTimeFrame(playDate: int) reads this { TimeFrameIsValid(State(), playDate) }

    predicate IsAlreadyScrobbled(p: Play) reads this { AlreadyScrobbled(State(), p) }

    /** Repopulates the recent history and its check time from the destination. */
    method RefreshScrobbles(f: Fetch) returns (o: Outcome)
      modifies this`recent, this`lastCheckedAt, this`calls
      ensures calls == old(calls) + [RefreshCall]
      ensures o == if f.FetchThrows? then Fail(f.error) else Pass
      ensures State() == Refreshed(old(State()), f)
    {
      calls := calls + [RefreshCall];
      match f
      case Fetched(history, at) =>
        recent, lastCheckedAt := history, at;
        o := Pass;
      case FetchThrows(e) =>
        o := Fail(e);
    }

    /** Delivers one play; a rejected play joins the dead-letter queue. */
    method Scrobble(p: Play, d: Delivery) returns (o: Outcome)
      modifies this`deadLetter, this`calls
      ensures calls == old(calls) + [DeliverCall(p)]
      ensures o == if d.DeliveryThrows? then Fail(d.error) else Pass
      ensures State() == Delivered(old(State()), p, d)
    {
      calls := calls + [DeliverCall(p)];
      match d
      case Accepted => o := Pass;
      case Rejected =>
        deadLetter := deadLetter + [p];
        o := Pass;
      case DeliveryThrows(e) => o := Fail(e);
    }

    /** Tests authentication; updates `authed` and reachability. */
    method TestAuth(a: AuthResponse) returns (o: Outcome)
      modifies this`authed, this`reachable, this`calls
      ensures calls == old(calls) + [TestAuthCall]
      ensures o == if a.AuthThrows? then Fail(a.error) else Pass
      ensures State() == AfterAuth(old(State()), a)
    {
      calls := calls + [TestAuthCall];
      match a
      case AuthAnswer(ok, up) =>
        authed, reachable := ok, up;
        o := Pass;
      case AuthThrows(e) => o := Fail(e);
    }

    /** Re-attempts every dead letter in FIFO order; refused ones stay queued. */
    method ProcessDeadLetterQueue(d: DrainResponse) returns (o: Outcome)
      modifies this`deadLetter, this`calls
      ensures calls == old(calls) + [DrainCall]
      ensures o == if d.DrainThrows? then Fail(d.error) else Pass
      ensures State() == Drained(old(State()), d)
    {
      calls := calls + [DrainCall];
      match d
      case Redeliver(accepts) =>
        deadLetter := Remaining(deadLetter, accepts);
        o := Pass;
      case DrainThrows(e) => o := Fail(e);
    }

    /** Starts the monitoring loop; the client is scrobbling from then on. */
    method InitScrobbleMonitoring()
      modifies this`scrobbling, this`calls
      ensures calls == old(calls) + [MonitorCall]
      ensures State() == old(State()).(scrobbling := true)
    {
      calls := calls + [MonitorCall];
      scrobbling := true;
    }
  }
}
