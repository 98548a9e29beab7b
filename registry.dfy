/** The client registry (`ScrobbleClients`): building the destination clients
    from configuration, and fanning plays out to every client. */
module Registry {
  import opened Common
  import opened JsValues
  import opened Destination

  // ---------------------------------------------------------------------
  // Building clients from configuration

  /** The destination types the registry builds, in build order. */
  const SupportedTypes: seq<string> := ["maloja"]

  const NotObjectsMessage: string := "All client from config json must be objects"

  /** The two environment variables read as the fallback config. */
  datatype Env = Env(malojaUrl: Option<string>, malojaApiKey: Option<string>)

  /** Every configuration entry passes `typeof x === 'object'`. */
  predicate AllObjects(configs: seq<Value>) {
    forall i :: 0 <= i < |configs| ==> TypeofObject(configs[i])
  }

  /** `configs.find(x => x.type === t)`: the first entry whose `type` is the
      string `t`; reading `type` of a `null` (or `undefined`) entry met before
      a match throws. */
  function FindType(configs: seq<Value>, t: string): (r: Result<Option<Value>>)
    ensures r.Ok? && r.value.Some? ==>
      r.value.value in configs && Prop(r.value.value, "type") == Ok(Str(t))
    ensures r.Ok? && r.value.None? ==>
      forall v :: v in configs ==> Prop(v, "type").Ok? && Prop(v, "type") != Ok(Str(t))
    ensures r.Err? ==> exists v :: v in configs && (v.Null? || v.Undefined?)
  {
    if configs == [] then Ok(None)
    else
      match Prop(configs[0], "type")
      case Err(e) => Err(e)
      case Ok(ty) =>
        if ty == Str(t) then Ok(Some(configs[0]))
        else
          var rest := FindType(configs[1..], t);
          assert forall v :: v in configs[1..] ==> v in configs;
          assert forall v :: v in configs ==> v == configs[0] || v in configs[1..];
          rest
  }

  /** Entry `v` has the `type` `t`. */
  predicate HasType(v: Value, t: string) {
    Prop(v, "type") == Ok(Str(t))
  }

  /** `find` returns the first entry of type `t`, provided reading `type` of
      every entry before it succeeds. */
  lemma {:induction false} FindTypeFirst(configs: seq<Value>, t: string, i: nat)
    requires i < |configs| && HasType(configs[i], t)
    requires forall j :: 0 <= j < i ==> Prop(configs[j], "type").Ok? && !HasType(configs[j], t)
    ensures FindType(configs, t) == Ok(Some(configs[i]))
  {
    if i > 0 {
      assert forall j :: 0 <= j < i - 1 ==> configs[1..][j] == configs[j + 1];
      FindTypeFirst(configs[1..], t, i - 1);
    }
  }

  /** A `null` or `undefined` entry before every entry of type `t`. */
  predicate NullBeforeMatch(configs: seq<Value>, t: string, i: nat) {
    i < |configs| && (configs[i].Null? || configs[i].Undefined?) &&
    forall j :: 0 <= j < i ==> !HasType(configs[j], t)
  }

  /** `find` throws exactly when a `null` or `undefined` entry comes before
      every entry of type `t`. */
  lemma FindTypeThrows(configs: seq<Value>, t: string)
    ensures FindType(configs, t).Err? <==> exists i: nat :: NullBeforeMatch(configs, t, i)
  {
    if FindType(configs, t).Err? {
      var i := FindTypeThrowsAt(configs, t);
    } else if exists i: nat :: NullBeforeMatch(configs, t, i) {
      var i: nat :| NullBeforeMatch(configs, t, i);
      NullBeforeMatchThrows(configs, t, i);
    }
  }

  /** When `find` throws, the entry it threw on is `null` or `undefined` and
      comes before every entry of type `t`. */
  lemma {:induction false} FindTypeThrowsAt(configs: seq<Value>, t: string) returns (i: nat)
    requires FindType(configs, t).Err?
    ensures NullBeforeMatch(configs, t, i)
  {
    if Prop(configs[0], "type").Err? {
      i := 0;
    } else {
      var k := FindTypeThrowsAt(configs[1..], t);
      i := k + 1;
      assert configs[i] == configs[1..][k];
      forall j | 0 <= j < i
        ensures !HasType(configs[j], t)
      {
        if j > 0 {
          assert configs[j] == configs[1..][j - 1];
        }
      }
    }
  }

  /** A `null` or `undefined` entry before every entry of type `t` makes `find` throw. */
  lemma {:induction false} NullBeforeMatchThrows(configs: seq<Value>, t: string, i: nat)
    requires NullBeforeMatch(configs, t, i)
    ensures FindType(configs, t).Err?
  {
    if i > 0 && Prop(configs[0], "type").Ok? {
      assert !HasType(configs[0], t);
      forall j | 0 <= j < i - 1
        ensures !HasType(configs[1..][j], t)
      {
        assert configs[1..][j] == configs[j + 1];
      }
      NullBeforeMatchThrows(configs[1..], t, i - 1);
    }
  }

  /** The environment fallback `{url: MALOJA_URL, apiKey: MALOJA_API_KEY}`. */
  function EnvConfig(env: Env): Value {
    Object(map["url" := FromEnv(env.malojaUrl), "apiKey" := FromEnv(env.malojaApiKey)])
  }

  /** The config a Maloja client starts from: the explicit entry, else the
      environment fallback. */
  function Chosen(configs: seq<Value>, env: Env): Result<Value> {
    match FindType(configs, "maloja")
    case Err(e) => Err(e)
    case Ok(Some(entry)) => Ok(entry)
    case Ok(None) => Ok(EnvConfig(env))
  }

  /** Whether the per-type file is consulted: every value of the chosen
      config is undefined. */
  predicate NeedsFile(chosen: Value) {
    chosen.Object? && AllValuesUndefined(chosen.props)
  }

  /** The `url`/`apiKey` checks: the config itself when both are defined,
      `None` (a skipped client) when either is undefined; destructuring a
      `null` throws. */
  function Validate(c: Value): (r: Result<Option<Value>>)
    ensures r.Err? <==> c.Null? || c.Undefined?
    ensures r == Ok(Some(c)) <==>
      Prop(c, "url").Ok? && Prop(c, "url").value != Undefined && Prop(c, "apiKey").value != Undefined
    ensures r.Ok? && r.value.Some? ==> r.value.value == c
  {
    match Prop(c, "url")
    case Err(e) => Err(e)
    case Ok(url) =>
      if url == Undefined then Ok(None)
      else if Prop(c, "apiKey").value == Undefined then Ok(None)
      else Ok(Some(c))
  }

  /** The Maloja case of the build loop. `file` is what reading
      `<configDir>/maloja.json` yields, `None` when that read fails. */
  function ResolveMaloja(configs: seq<Value>, env: Env, file: Option<Value>): Result<Option<Value>> {
    match Chosen(configs, env)
    case Err(e) => Err(e)
    case Ok(chosen) =>
      if NeedsFile(chosen) then
        match file
        case None => Ok(None)
        case Some(v) => Validate(v)
      else Validate(chosen)
  }

  /** One pass of the loop over destination types; unknown types build nothing. */
  function ResolveType(t: string, configs: seq<Value>, env: Env, file: Option<Value>): Result<Option<Value>> {
    if t == "maloja" then ResolveMaloja(configs, env, file) else Ok(None)
  }

  function OptionToSeq(c: Option<Value>): seq<Value> {
    if c.Some? then [c.value] else []
  }

  function Prepend(prefix: seq<Value>, r: Result<seq<Value>>): Result<seq<Value>> {
    if r.Ok? then Ok(prefix + r.value) else r
  }

  lemma PrependAssoc(a: seq<Value>, b: seq<Value>, r: Result<seq<Value>>)
    ensures Prepend(a, Prepend(b, r)) == Prepend(a + b, r)
  {
    if r.Ok? {
      assert a + (b + r.value) == (a + b) + r.value;
    }
  }

  /** The configs clients are built from, type by type; the first throw aborts. */
  function PlanTypes(types: seq<string>, configs: seq<Value>, env: Env, file: Option<Value>): (r: Result<seq<Value>>)
    ensures r.Ok? ==> |r.value| <= |types|
  {
    if types == [] then Ok([])
    else
      match ResolveType(types[0], configs, env, file)
      case Err(e) => Err(e)
      case Ok(c) => Prepend(OptionToSeq(c), PlanTypes(types[1..], configs, env, file))
  }

  /** What `buildClients` produces: an error, or the configs of the clients it builds. */
  function Plan(configs: seq<Value>, env: Env, file: Option<Value>): Result<seq<Value>> {
    if !AllObjects(configs) then Err(NotObjectsMessage)
    else PlanTypes(SupportedTypes, configs, env, file)
  }

  /** The `maloja` case of the build loop: the explicit entry, else the
      environment fallback, else the file when every value of that is
      undefined; then the `url` and `apiKey` checks. `Ok(None)` is a
      `continue` that skips the type. */
  method ResolveConfig(configs: seq<Value>, env: Env, file: Option<Value>) returns (r: Result<Option<Value>>)
    ensures r == ResolveMaloja(configs, env, file)
  {
    var found := FindType(configs, "maloja");
    if found.Err? {
      return Err(found.error);
    }
    var clientConfig := if found.value.Some? then found.value.value else EnvConfig(env);
    if clientConfig.Object? && AllValuesUndefined(clientConfig.props) {
      if file.None? {
        return Ok(None);
      }
      clientConfig := file.value;
    }
    var url := Prop(clientConfig, "url");
    var apiKey := Prop(clientConfig, "apiKey");
    if url.Err? {
      return Err(url.error);
    }
    if url.value == Undefined {
      return Ok(None);
    }
    if apiKey.value == Undefined {
      return Ok(None);
    }
    return Ok(Some(clientConfig));
  }

  /** A non-object entry fails the whole build with the validation message. */
  lemma NonObjectEntryRejected(configs: seq<Value>, env: Env, file: Option<Value>, i: nat)
    requires i < |configs| && !TypeofObject(configs[i])
    ensures Plan(configs, env, file) == Err(NotObjectsMessage)
  {
  }

  /** At most one client per supported type, and each one built has both a
      `url` and an `apiKey`. */
  lemma {:induction false} PlannedClientsComplete(configs: seq<Value>, env: Env, file: Option<Value>)
    requires Plan(configs, env, file).Ok?
    ensures |Plan(configs, env, file).value| <= |SupportedTypes|
    ensures forall c :: c in Plan(configs, env, file).value ==>
      Prop(c, "url").Ok? && Prop(c, "url").value != Undefined &&
      Prop(c, "apiKey").value != Undefined
  {
    var r := ResolveMaloja(configs, env, file);
    assert SupportedTypes[1..] == [];
    if r.Ok? && r.value.Some? {
      ValidatedHasUrlAndKey(r.value.value, if NeedsFile(Chosen(configs, env).value) then file.value else Chosen(configs, env).value);
    }
  }

  lemma ValidatedHasUrlAndKey(c: Value, from: Value)
    requires Validate(from) == Ok(Some(c))
    ensures Prop(c, "url").Ok? && Prop(c, "url").value != Undefined && Prop(c, "apiKey").value != Undefined
  {
  }

  /** An explicit entry of type `maloja` beats the environment and the file:
      the client is built from that entry exactly when it has a `url` and an
      `apiKey`. */
  lemma ExplicitEntryWins(configs: seq<Value>, env: Env, file: Option<Value>, entry: Value)
    requires FindType(configs, "maloja") == Ok(Some(entry))
    ensures ResolveMaloja(configs, env, file) ==
      if Prop(entry, "url").value != Undefined && Prop(entry, "apiKey").value != Undefined
      then Ok(Some(entry)) else Ok(None)
  {
    assert entry.Object? && "type" in entry.props && entry.props["type"] != Undefined;
    assert !NeedsFile(entry);
  }

  /** The file only matters when neither an explicit entry nor either
      environment variable is there; then a failed read skips the client. */
  lemma FileOnlyWhenUnset(configs: seq<Value>, env: Env, f1: Option<Value>, f2: Option<Value>)
    requires FindType(configs, "maloja").Ok?
    ensures FindType(configs, "maloja").value.Some? || env.malojaUrl.Some? || env.malojaApiKey.Some? ==>
      ResolveMaloja(configs, env, f1) == ResolveMaloja(configs, env, f2)
    ensures FindType(configs, "maloja").value.None? && env.malojaUrl.None? && env.malojaApiKey.None? ==>
      ResolveMaloja(configs, env, None) == Ok(None)
  {
    var found := FindType(configs, "maloja").value;
    if found.Some? {
      assert found.value.Object? && "type" in found.value.props && found.value.props["type"] != Undefined;
    } else if env.malojaUrl.Some? {
      assert EnvConfig(env).props["url"] != Undefined;
    } else if env.malojaApiKey.Some? {
      assert EnvConfig(env).props["apiKey"] != Undefined;
    }
  }

  /** Once every entry is an object, the build yields the one resolved Maloja
      config, no config when that resolves to a skip, or its exception. */
  lemma PlanIsResolved(configs: seq<Value>, env: Env, file: Option<Value>)
    requires AllObjects(configs)
    ensures Plan(configs, env, file) ==
      match ResolveMaloja(configs, env, file)
      case Err(e) => Err(e)
      case Ok(c) => Ok(OptionToSeq(c))
  {
    assert SupportedTypes[0] == "maloja" && SupportedTypes[1..] == [];
    var r := ResolveMaloja(configs, env, file);
    assert ResolveType(SupportedTypes[0], configs, env, file) == r;
    assert PlanTypes(SupportedTypes[1..], configs, env, file) == Ok([]);
    if r.Ok? {
      assert OptionToSeq(r.value) + [] == OptionToSeq(r.value);
    }
  }

  /** Without an explicit entry but with either environment variable set, the
      client is built from the environment exactly when both are set. */
  lemma EnvConfigUsed(configs: seq<Value>, env: Env, file: Option<Value>)
    requires FindType(configs, "maloja") == Ok(None)
    requires env.malojaUrl.Some? || env.malojaApiKey.Some?
    ensures ResolveMaloja(configs, env, file) ==
      if env.malojaUrl.Some? && env.malojaApiKey.Some? then Ok(Some(EnvConfig(env))) else Ok(None)
  {
    if env.malojaUrl.Some? {
      assert EnvConfig(env).props["url"] != Undefined;
    } else {
      assert EnvConfig(env).props["apiKey"] != Undefined;
    }
  }

  /** Without an explicit entry and with neither environment variable set, a
      file that was read is validated like any other config. */
  lemma FileConfigUsed(configs: seq<Value>, v: Value)
    requires FindType(configs, "maloja") == Ok(None)
    ensures ResolveMaloja(configs, Env(None, None), Some(v)) == Validate(v)
  {
    assert NeedsFile(EnvConfig(Env(None, None)));
  }

  /** With no entry of type `maloja` (and no `null` entry), no environment
      variables and no readable file, the build succeeds with no client. */
  lemma {:induction false} NothingConfiguredBuildsNothing(configs: seq<Value>)
    requires forall v :: v in configs ==> v.Object? && ("type" !in v.props || v.props["type"] != Str("maloja"))
    ensures Plan(configs, Env(None, None), None) == Ok([])
  {
    NoMalojaEntry(configs);
    assert Chosen(configs, Env(None, None)) == Ok(EnvConfig(Env(None, None)));
    assert AllObjects(configs) by {
      assert forall i :: 0 <= i < |configs| ==> configs[i] in configs;
    }
    assert NeedsFile(EnvConfig(Env(None, None)));
    assert ResolveMaloja(configs, Env(None, None), None) == Ok(None);
    assert SupportedTypes[1..] == [];
    assert PlanTypes(SupportedTypes[1..], configs, Env(None, None), None) == Ok([]);
  }

  lemma {:induction false} NoMalojaEntry(configs: seq<Value>)
    requires forall v :: v in configs ==> v.Object? && ("type" !in v.props || v.props["type"] != Str("maloja"))
    ensures FindType(configs, "maloja") == Ok(None)
  {
    if configs != [] {
      assert forall v :: v in configs[1..] ==> v in configs;
      NoMalojaEntry(configs[1..]);
    }
  }

  // ---------------------------------------------------------------------
  // Dispatching plays to every client

  /** `scrobble` accepts one play or an array of plays. */
  datatype PlayData = Single(play: Play) | Batch(plays: seq<Play>)

  function PlayList(data: PlayData): seq<Play> {
    match data
    case Single(p) => [p]
    case Batch(ps) => ps
  }

  /** The options object; an absent field takes its default. */
  datatype ScrobbleOptions = ScrobbleOptions(forceRefresh: Option<bool>, checkTime: Option<int>)

  function ForceRefresh(o: ScrobbleOptions): bool {
    o.forceRefresh == Some(true)
  }

  function CheckTime(o: ScrobbleOptions, now: int): int {
    if o.checkTime.Some? then o.checkTime.value else now
  }

  /** What one client's destination answers during one `scrobble` call: to
      the history refresh, and to the delivery of the j-th play. */
  datatype ClientNet = ClientNet(fetch: Fetch, deliver: nat -> Delivery)

  /** The answers for the client at each position of the list. */
  datatype Network = Network(client: nat -> ClientNet)

  /** The play filter: inside the client's time frame and not yet in its history. */
  predicate Eligible(s: ClientState, p: Play) {
    TimeFrameIsValid(s, p.playDate) && !AlreadyScrobbled(s, p)
  }

  /** The plays of `plays` that pass the filter, in order. */
  function EligiblePlays(s: ClientState, plays: seq<Play>): seq<Play> {
    if plays == [] then []
    else (if Eligible(s, plays[0]) then [plays[0]] else []) + EligiblePlays(s, plays[1..])
  }

  /** One client's share of a `scrobble` call: the plays recorded, its state
      afterwards, the operations invoked on it, and whether it threw. */
  datatype Turn = Turn(attempted: seq<Play>, post: ClientState, calls: seq<Call>, threw: bool)

  function Then(attempted: seq<Play>, calls: seq<Call>, t: Turn): Turn {
    Turn(attempted + t.attempted, t.post, calls + t.calls, t.threw)
  }

  /** Two states that differ at most in their dead-letter queues. */
  ghost predicate SameBesidesQueue(s: ClientState, s': ClientState) {
    s.(deadLetter := []) == s'.(deadLetter := [])
  }

  /** The play loop from position `j`: each eligible play is recorded, then
      delivered; an exception ends this client's loop. */
  function DeliverFrom(s: ClientState, plays: seq<Play>, j: nat, deliver: nat -> Delivery): Turn
    requires j <= |plays|
    decreases |plays| - j
  {
    if j == |plays| then Turn([], s, [], false)
    else if !Eligible(s, plays[j]) then DeliverFrom(s, plays, j + 1, deliver)
    else if deliver(j).DeliveryThrows? then Turn([plays[j]], s, [DeliverCall(plays[j])], true)
    else Then([plays[j]], [DeliverCall(plays[j])],
              DeliverFrom(Delivered(s, plays[j], deliver(j)), plays, j + 1, deliver))
  }

  /** Whether a client's history is refreshed before its plays are tested. */
  predicate NeedsRefresh(s: ClientState, forceRefresh: bool, checkTime: int) {
    forceRefresh || s.lastCheckedAt < checkTime
  }

  /** One client's turn: the refresh when forced or stale, then the play loop. */
  function ClientTurn(s: ClientState, plays: seq<Play>, forceRefresh: bool, checkTime: int, net: ClientNet): Turn {
    if NeedsRefresh(s, forceRefresh, checkTime) then
      if net.fetch.FetchThrows? then Turn([], s, [RefreshCall], true)
      else Then([], [RefreshCall], DeliverFrom(Refreshed(s, net.fetch), plays, 0, net.deliver))
    else DeliverFrom(s, plays, 0, net.deliver)
  }

  /** The state whose history and time frame the play filter consults. */
  function FilterState(s: ClientState, forceRefresh: bool, checkTime: int, net: ClientNet): ClientState {
    if NeedsRefresh(s, forceRefresh, checkTime) then Refreshed(s, net.fetch) else s
  }

  /** The turns of every client, each computed from that client's own
      state and answers alone. */
  function Turns(states: seq<ClientState>, plays: seq<Play>, forceRefresh: bool, checkTime: int, net: Network): (r: seq<Turn>)
    ensures |r| == |states|
  {
    if states == [] then []
    else
      var n := |states| - 1;
      Turns(states[..n], plays, forceRefresh, checkTime, net)
        + [ClientTurn(states[n], plays, forceRefresh, checkTime, net.client(n))]
  }

  /** The turn at position `k` is that client's own turn. */
  lemma {:induction false} TurnAt(states: seq<ClientState>, plays: seq<Play>, forceRefresh: bool, checkTime: int,
                                  net: Network, k: nat)
    requires k < |states|
    ensures Turns(states, plays, forceRefresh, checkTime, net)[k]
         == ClientTurn(states[k], plays, forceRefresh, checkTime, net.client(k))
    decreases |states|
  {
    var n := |states| - 1;
    if k < n {
      TurnAt(states[..n], plays, forceRefresh, checkTime, net, k);
    }
  }

  /** The plays recorded by all turns, client after client. */
  function Flatten(turns: seq<Turn>): seq<Play> {
    if turns == [] then [] else turns[0].attempted + Flatten(turns[1..])
  }

  /** The plays of the first `i` turns, gathered in the order of a loop over them. */
  function FlattenUpTo(turns: seq<Turn>, i: nat): seq<Play>
    requires i <= |turns|
  {
    if i == 0 then [] else FlattenUpTo(turns, i - 1) + turns[i - 1].attempted
  }

  /** Gathering the plays turn by turn gives the flattening of the prefix. */
  lemma {:induction false} FlattenUpToPrefix(turns: seq<Turn>, i: nat)
    requires i <= |turns|
    ensures FlattenUpTo(turns, i) == Flatten(turns[..i])
  {
    if i > 0 {
      FlattenUpToPrefix(turns, i - 1);
      assert turns[..i] == turns[..i - 1] + [turns[i - 1]];
      FlattenAppend(turns[..i - 1], turns[i - 1]);
    }
  }

  lemma FlattenUpToAll(turns: seq<Turn>)
    ensures FlattenUpTo(turns, |turns|) == Flatten(turns)
  {
    FlattenUpToPrefix(turns, |turns|);
    assert turns[..|turns|] == turns;
  }

  lemma {:induction false} FlattenAppend(turns: seq<Turn>, t: Turn)
    ensures Flatten(turns + [t]) == Flatten(turns) + t.attempted
  {
    if turns != [] {
      assert (turns + [t])[1..] == turns[1..] + [t];
      FlattenAppend(turns[1..], t);
    }
  }

  /** The play loop records a prefix of the eligible plays, all of them when
      nothing throws, and at least the play whose delivery threw; it delivers
      exactly the plays it records, in order; it only appends to the
      dead-letter queue and leaves everything else of the state alone. */
  lemma {:induction false} DeliverFromSpec(s: ClientState, plays: seq<Play>, j: nat, deliver: nat -> Delivery)
    requires j <= |plays|
    ensures var t := DeliverFrom(s, plays, j, deliver);
      && t.attempted <= EligiblePlays(s, plays[j..])
      && (!t.threw ==> t.attempted == EligiblePlays(s, plays[j..]))
    decreases |plays| - j
  {
    if j < |plays| {
      var p := plays[j];
      var rest := EligiblePlays(s, plays[j + 1..]);
      assert plays[j..][1..] == plays[j + 1..];
      assert EligiblePlays(s, plays[j..]) == (if Eligible(s, p) then [p] else []) + rest;
      if !Eligible(s, p) {
        DeliverFromSpec(s, plays, j + 1, deliver);
      } else if deliver(j).DeliveryThrows? {
        assert [p] <= [p] + rest;
      } else {
        var s' := Delivered(s, p, deliver(j));
        var t' := DeliverFrom(s', plays, j + 1, deliver);
        DeliverFromSpec(s', plays, j + 1, deliver);
        DeliveredKeepsEligible(s, p, deliver(j), plays[j + 1..]);
        PrefixCons(p, t'.attempted, rest);
      }
    }
  }

  /** Recording a delivery does not change which plays are eligible. */
  lemma DeliveredKeepsEligible(s: ClientState, p: Play, d: Delivery, plays: seq<Play>)
    ensures EligiblePlays(Delivered(s, p, d), plays) == EligiblePlays(s, plays)
  {
    EligibleAgain(s, Delivered(s, p, d), plays);
  }

  lemma PrefixCons<T>(x: T, a: seq<T>, b: seq<T>)
    requires a <= b
    ensures [x] + a <= [x] + b
  {
    assert forall i :: 0 <= i < |a| ==> ([x] + a)[i + 1] == a[i] == b[i] == ([x] + b)[i + 1];
  }

  /** The play loop delivers exactly the plays it records, one call each and
      in order, and changes nothing but the dead-letter queue, which it only
      extends. */
  lemma {:induction false} DeliverFromEffects(s: ClientState, plays: seq<Play>, j: nat, deliver: nat -> Delivery)
    requires j <= |plays|
    ensures var t := DeliverFrom(s, plays, j, deliver);
      && t.calls == DeliverCalls(t.attempted)
      && s.deadLetter <= t.post.deadLetter
      && SameBesidesQueue(s, t.post)
    decreases |plays| - j
  {
    if j < |plays| {
      if !Eligible(s, plays[j]) {
        DeliverFromEffects(s, plays, j + 1, deliver);
      } else if !deliver(j).DeliveryThrows? {
        var p := plays[j];
        var s' := Delivered(s, p, deliver(j));
        var t' := DeliverFrom(s', plays, j + 1, deliver);
        DeliverFromEffects(s', plays, j + 1, deliver);
        DeliverCallsCons(p, t'.attempted);
        DeliveredOnlyQueues(s, p, deliver(j), t'.post);
      }
    }
  }

  /** A delivery only appends to the queue, so a state that differs from the
      delivered one only by a longer queue differs so from the original too. */
  lemma DeliveredOnlyQueues(s: ClientState, p: Play, d: Delivery, u: ClientState)
    requires Delivered(s, p, d).deadLetter <= u.deadLetter && SameBesidesQueue(Delivered(s, p, d), u)
    ensures s.deadLetter <= u.deadLetter && SameBesidesQueue(s, u)
  {
  }

  /** When a client's play loop throws, the play it recorded last is the
      one whose delivery threw: a play is recorded before it is delivered. */
  lemma {:induction false} ThrowingPlayRecorded(s: ClientState, plays: seq<Play>, j: nat, deliver: nat -> Delivery)
    requires j <= |plays|
    requires DeliverFrom(s, plays, j, deliver).threw
    ensures var t := DeliverFrom(s, plays, j, deliver);
      t.attempted != [] &&
      exists k :: j <= k < |plays| && deliver(k).DeliveryThrows? && plays[k] == t.attempted[|t.attempted| - 1]
    decreases |plays| - j
  {
    if !Eligible(s, plays[j]) {
      ThrowingPlayRecorded(s, plays, j + 1, deliver);
    } else if !deliver(j).DeliveryThrows? {
      ThrowingPlayRecorded(Delivered(s, plays[j], deliver(j)), plays, j + 1, deliver);
    }
  }

  /** A delivery touches only the queue, so it does not change whether a play
      is eligible. */
  lemma DeliveredKeepsEligibility(s: ClientState, p: Play, d: Delivery)
    ensures forall q :: Eligible(Delivered(s, p, d), q) == Eligible(s, q)
  {
    assert Delivered(s, p, d).recent == s.recent && Delivered(s, p, d).profile == s.profile;
  }

  /** The play loop ends in an exception exactly when some eligible play's
      delivery throws. */
  lemma {:induction false} DeliverFromThrows(s: ClientState, plays: seq<Play>, j: nat, deliver: nat -> Delivery)
    requires j <= |plays|
    ensures DeliverFrom(s, plays, j, deliver).threw <==>
      exists k :: j <= k < |plays| && Eligible(s, plays[k]) && deliver(k).DeliveryThrows?
    decreases |plays| - j
  {
    if j < |plays| {
      if !Eligible(s, plays[j]) {
        DeliverFromThrows(s, plays, j + 1, deliver);
      } else if !deliver(j).DeliveryThrows? {
        var s' := Delivered(s, plays[j], deliver(j));
        DeliverFromThrows(s', plays, j + 1, deliver);
        DeliveredKeepsEligibility(s, plays[j], deliver(j));
      }
    }
  }

  /** The first eligible play whose delivery throws ends the turn: it is the
      last play recorded, and every eligible play before it was recorded. */
  lemma {:induction false} DeliveryThrowEndsTurn(s: ClientState, plays: seq<Play>, j: nat, deliver: nat -> Delivery, k: nat)
    requires j <= k < |plays|
    requires Eligible(s, plays[k]) && deliver(k).DeliveryThrows?
    requires forall i :: j <= i < k ==> !(Eligible(s, plays[i]) && deliver(i).DeliveryThrows?)
    ensures DeliverFrom(s, plays, j, deliver).threw
    ensures DeliverFrom(s, plays, j, deliver).attempted == EligiblePlays(s, plays[j..k + 1])
    decreases k - j
  {
    var window := plays[j..k + 1];
    assert window[0] == plays[j] && window[1..] == plays[j + 1..k + 1];
    if j == k {
      assert window[1..] == [];
    } else if !Eligible(s, plays[j]) {
      DeliveryThrowEndsTurn(s, plays, j + 1, deliver, k);
    } else {
      var s' := Delivered(s, plays[j], deliver(j));
      DeliveredKeepsEligibility(s, plays[j], deliver(j));
      DeliveryThrowEndsTurn(s', plays, j + 1, deliver, k);
      DeliveredKeepsEligible(s, plays[j], deliver(j), plays[j + 1..k + 1]);
    }
  }

  /** The delivery calls for a list of plays, one per play, in order. */
  function DeliverCalls(plays: seq<Play>): (r: seq<Call>)
    ensures |r| == |plays|
    ensures forall i :: 0 <= i < |plays| ==> r[i] == DeliverCall(plays[i])
  {
    if plays == [] then [] else [DeliverCall(plays[0])] + DeliverCalls(plays[1..])
  }

  lemma DeliverCallsCons(p: Play, plays: seq<Play>)
    ensures DeliverCalls([p] + plays) == [DeliverCall(p)] + DeliverCalls(plays)
  {
    assert ([p] + plays)[1..] == plays;
  }

  /** Queuing a dead letter does not change which plays are eligible. */
  lemma {:induction false} EligibleAgain(s: ClientState, s': ClientState, plays: seq<Play>)
    requires SameBesidesQueue(s, s')
    ensures EligiblePlays(s', plays) == EligiblePlays(s, plays)
  {
    if plays != [] {
      assert Eligible(s', plays[0]) == Eligible(s, plays[0]);
      EligibleAgain(s, s', plays[1..]);
    }
  }

  /** Every play the filter lets through is in the time frame and not in the history. */
  lemma {:induction false} EligiblePlaysSound(s: ClientState, plays: seq<Play>)
    ensures forall p :: p in EligiblePlays(s, plays) <==> p in plays && Eligible(s, p)
  {
    if plays != [] {
      EligiblePlaysSound(s, plays[1..]);
      assert forall p :: p in plays <==> p == plays[0] || p in plays[1..];
    }
  }

  /** A client's history is refreshed exactly when forced or stale, and then
      before any play is delivered. */
  lemma ClientTurnRefresh(s: ClientState, plays: seq<Play>, forceRefresh: bool, checkTime: int, net: ClientNet)
    ensures var t := ClientTurn(s, plays, forceRefresh, checkTime, net);
      && (RefreshCall in t.calls <==> NeedsRefresh(s, forceRefresh, checkTime))
      && (NeedsRefresh(s, forceRefresh, checkTime) ==> t.calls[0] == RefreshCall)
      && (NeedsRefresh(s, forceRefresh, checkTime) && net.fetch.FetchThrows? ==>
            t.threw && t.attempted == [] && t.calls == [RefreshCall])
  {
    var f := FilterState(s, forceRefresh, checkTime, net);
    if !(NeedsRefresh(s, forceRefresh, checkTime) && net.fetch.FetchThrows?) {
      DeliverFromEffects(f, plays, 0, net.deliver);
      var d := DeliverFrom(f, plays, 0, net.deliver);
      assert RefreshCall !in d.calls;
    }
  }

  /** Each play a client records is in the input, in its time frame and not
      in the history in effect; without an exception, the recorded plays are
      exactly the eligible ones. */
  lemma ClientTurnPlays(s: ClientState, plays: seq<Play>, forceRefresh: bool, checkTime: int, net: ClientNet)
    ensures var t := ClientTurn(s, plays, forceRefresh, checkTime, net);
      && (forall p :: p in t.attempted ==>
            p in plays && TimeFrameIsValid(s, p.playDate) &&
            !AlreadyScrobbled(FilterState(s, forceRefresh, checkTime, net), p))
      && (!t.threw ==> t.attempted == EligiblePlays(FilterState(s, forceRefresh, checkTime, net), plays))
  {
    var f := FilterState(s, forceRefresh, checkTime, net);
    assert plays[0..] == plays;
    EligiblePlaysSound(f, plays);
    if !(NeedsRefresh(s, forceRefresh, checkTime) && net.fetch.FetchThrows?) {
      DeliverFromSpec(f, plays, 0, net.deliver);
      var d := DeliverFrom(f, plays, 0, net.deliver);
      assert forall p :: p in d.attempted ==> p in EligiblePlays(f, plays);
    }
  }

  /** A client's turn ends in an exception exactly when its refresh throws or
      an eligible play's delivery throws; the exception is then absorbed and
      the client's remaining plays are not tried. */
  lemma ClientTurnThrows(s: ClientState, plays: seq<Play>, forceRefresh: bool, checkTime: int, net: ClientNet)
    ensures ClientTurn(s, plays, forceRefresh, checkTime, net).threw <==>
      (NeedsRefresh(s, forceRefresh, checkTime) && net.fetch.FetchThrows?) ||
      exists k :: 0 <= k < |plays| &&
        Eligible(FilterState(s, forceRefresh, checkTime, net), plays[k]) && net.deliver(k).DeliveryThrows?
  {
    if !(NeedsRefresh(s, forceRefresh, checkTime) && net.fetch.FetchThrows?) {
      DeliverFromThrows(FilterState(s, forceRefresh, checkTime, net), plays, 0, net.deliver);
    }
  }

  /** A call records at most one attempt per client per play. */
  lemma AttemptsBounded(states: seq<ClientState>, plays: seq<Play>, forceRefresh: bool, checkTime: int, net: Network)
    ensures |Flatten(Turns(states, plays, forceRefresh, checkTime, net))| <= |states| * |plays|
  {
    var turns := Turns(states, plays, forceRefresh, checkTime, net);
    forall k | 0 <= k < |turns|
      ensures |turns[k].attempted| <= |plays|
    {
      TurnAt(states, plays, forceRefresh, checkTime, net, k);
      TurnAttemptsBounded(states[k], plays, forceRefresh, checkTime, net.client(k));
    }
    FlattenBounded(turns, |plays|);
  }

  lemma {:induction false} FlattenBounded(turns: seq<Turn>, n: nat)
    requires forall k :: 0 <= k < |turns| ==> |turns[k].attempted| <= n
    ensures |Flatten(turns)| <= |turns| * n
  {
    if turns != [] {
      FlattenBounded(turns[1..], n);
    }
  }

  lemma TurnAttemptsBounded(s: ClientState, plays: seq<Play>, forceRefresh: bool, checkTime: int, net: ClientNet)
    ensures |ClientTurn(s, plays, forceRefresh, checkTime, net).attempted| <= |plays|
  {
    var f := FilterState(s, forceRefresh, checkTime, net);
    EligibleBounded(f, plays);
    assert plays[0..] == plays;
    DeliverFromSpec(f, plays, 0, net.deliver);
  }

  lemma {:induction false} EligibleBounded(s: ClientState, plays: seq<Play>)
    ensures |EligiblePlays(s, plays)| <= |plays|
  {
    if plays != [] {
      EligibleBounded(s, plays[1..]);
    }
  }

  /** The body of the per-client `try` block of `scrobble`: the refresh when
      forced or stale, then the play loop; an exception ends the turn. */
  method ServeClient(c: Client, plays: seq<Play>, forceRefresh: bool, checkTime: int, cn: ClientNet, ghost turn: Turn)
    returns (attempted: seq<Play>)
    requires turn == ClientTurn(c.State(), plays, forceRefresh, checkTime, cn)
    modifies c
    ensures attempted == turn.attempted && c.State() == turn.post && c.calls == old(c.calls) + turn.calls
  {
    ghost var made: seq<Call> := [];
    attempted := [];
    var failed := false;
    if forceRefresh || c.lastCheckedAt < checkTime {
      var o := c.RefreshScrobbles(cn.fetch);
      made := [RefreshCall];
      failed := o.Fail?;
    }
    var j := 0;
    while j < |plays| && !failed
      invariant 0 <= j <= |plays|
      invariant c.calls == old(c.calls) + made
      invariant failed ==> turn == Turn(attempted, c.State(), made, true)
      invariant !failed ==> turn == Then(attempted, made, DeliverFrom(c.State(), plays, j, cn.deliver))
    {
      var p := plays[j];
      if c.IsInTimeFrame(p.playDate) && !c.IsAlreadyScrobbled(p) {
        attempted := attempted + [p];
        var o := c.Scrobble(p, cn.deliver(j));
        made := made + [DeliverCall(p)];
        failed := o.Fail?;
      }
      j := j + 1;
    }
  }

  /** Client `c` has taken turn `t`, starting from the call log `before`. */
  ghost predicate Served(c: Client, t: Turn, before: seq<Call>)
    reads c
  {
    c.State() == t.post && c.calls == before + t.calls
  }

  /** Client `c` is still in state `s` with call log `before`. */
  ghost predicate Untouched(c: Client, s: ClientState, before: seq<Call>)
    reads c
  {
    c.State() == s && c.calls == before
  }

  /** The first `i` clients have taken their turns; the rest are as they were. */
  ghost predicate ServedUpTo(cs: seq<Client>, i: nat, turns: seq<Turn>, olds: seq<ClientState>, logs: seq<seq<Call>>)
    reads cs
  {
    && i <= |cs| == |turns| == |olds| == |logs|
    && (forall k {:trigger Served(cs[k], turns[k], logs[k])} :: 0 <= k < i ==> Served(cs[k], turns[k], logs[k]))
    && (forall k {:trigger Untouched(cs[k], olds[k], logs[k])} :: i <= k < |cs| ==> Untouched(cs[k], olds[k], logs[k]))
  }

  /** The call logs of a list of clients. */
  ghost function CallLogs(cs: seq<Client>): (r: seq<seq<Call>>)
    reads cs
    ensures |r| == |cs|
    ensures forall k :: 0 <= k < |cs| ==> r[k] == cs[k].calls
  {
    seq(|cs|, k requires 0 <= k < |cs| reads cs => cs[k].calls)
  }

  /** Before the first turn, every client is as recorded. */
  lemma NoneServedYet(cs: seq<Client>, turns: seq<Turn>)
    requires |turns| == |cs|
    ensures ServedUpTo(cs, 0, turns, States(cs), CallLogs(cs))
  {
  }

  /** After the last turn, every client has taken its turn. */
  lemma AllServed(cs: seq<Client>, turns: seq<Turn>, olds: seq<ClientState>, logs: seq<seq<Call>>)
    requires ServedUpTo(cs, |cs|, turns, olds, logs)
    ensures forall k :: 0 <= k < |cs| ==> cs[k].State() == turns[k].post && cs[k].calls == logs[k] + turns[k].calls
  {
    assert forall k :: 0 <= k < |cs| ==> Served(cs[k], turns[k], logs[k]);
  }

  /** The turn of the client at position `i`, the others left alone. */
  method ServeNext(cs: seq<Client>, i: nat, plays: seq<Play>, forceRefresh: bool, checkTime: int, net: Network,
                   ghost turns: seq<Turn>, ghost olds: seq<ClientState>, ghost logs: seq<seq<Call>>)
    returns (attempted: seq<Play>)
    requires i < |cs| && ServedUpTo(cs, i, turns, olds, logs)
    requires forall k :: 0 <= k < |cs| && k != i ==> cs[k] != cs[i]
    requires turns[i] == ClientTurn(olds[i], plays, forceRefresh, checkTime, net.client(i))
    modifies cs[i]
    ensures ServedUpTo(cs, i + 1, turns, olds, logs) && attempted == turns[i].attempted
  {
    assert Untouched(cs[i], olds[i], logs[i]);
    attempted := ServeClient(cs[i], plays, forceRefresh, checkTime, net.client(i), turns[i]);
    assert Served(cs[i], turns[i], logs[i]);
    forall k | 0 <= k < i
      ensures Served(cs[k], turns[k], logs[k])
    {
      assert old(Served(cs[k], turns[k], logs[k]));
    }
    forall k | i < k < |cs|
      ensures Untouched(cs[k], olds[k], logs[k])
    {
      assert old(Untouched(cs[k], olds[k], logs[k]));
    }
  }

  // ---------------------------------------------------------------------
  // The registry object

  /** No client object appears twice in a list: none occurs before its own position. */
  predicate Distinct(cs: seq<Client>) {
    forall i :: 0 <= i < |cs| ==> cs[i] !in cs[..i]
  }

  /** In a list without repeats, the client at position `i` is at no other position. */
  lemma DistinctAt(cs: seq<Client>, i: nat)
    requires Distinct(cs) && i < |cs|
    ensures forall k :: 0 <= k < |cs| && k != i ==> cs[k] != cs[i]
  {
    forall k | 0 <= k < |cs| && k != i
      ensures cs[k] != cs[i]
    {
      if k < i {
        assert cs[..i][k] == cs[k];
      } else {
        assert cs[..k][i] == cs[i];
      }
    }
  }

  function States(cs: seq<Client>): (r: seq<ClientState>)
    reads cs
    ensures |r| == |cs|
    ensures forall k :: 0 <= k < |cs| ==> r[k] == cs[k].State()
  {
    seq(|cs|, k requires 0 <= k < |cs| reads cs => cs[k].State())
  }

  /** A client as its constructor leaves it, built from `config`. */
  ghost predicate NewClient(c: Client, config: Value, maloja: Value -> Profile, now: int)
    reads c
  {
    && c.config == config
    && c.State() == ClientState(maloja(config), false, false, false, false, false, now, [], [])
    && c.calls == []
  }

  class ScrobbleClients {
    var clients: seq<Client>

    ghost predicate Valid()
      reads this
    {
      Distinct(clients)
    }

    constructor (clients: seq<Client>)
      requires Distinct(clients)
      ensures Valid() && this.clients == clients
    {
      this.clients := clients;
    }

    /** Builds the clients from configuration and replaces the list in one
        assignment; a throw leaves the list as it was. `maloja` stands for
        what a Maloja client's own code derives from its config. */
    method BuildClients(configs: seq<Value>, env: Env, file: Option<Value>, maloja: Value -> Profile, now: int)
      returns (o: Outcome)
      requires Valid()
      modifies this
      ensures Valid()
      ensures o.Fail? <==> Plan(configs, env, file).Err?
      ensures o.Fail? ==> o == Fail(Plan(configs, env, file).error) && clients == old(clients)
      ensures o.Pass? ==> |clients| == |Plan(configs, env, file).value|
      ensures o.Pass? ==> forall k :: 0 <= k < |clients| ==>
        && fresh(clients[k])
        && clients[k].config == Plan(configs, env, file).value[k]
        && clients[k].State() == ClientState(maloja(clients[k].config), false, false, false, false, false, now, [], [])
        && clients[k].calls == []
    {
      if !AllObjects(configs) {
        return Fail(NotObjectsMessage);
      }
      var built: seq<Client> := [];
      ghost var planned: seq<Value> := [];
      assert SupportedTypes[0..] == SupportedTypes;
      ghost var whole := PlanTypes(SupportedTypes, configs, env, file);
      assert whole.Ok? ==> [] + whole.value == whole.value;
      for i := 0 to |SupportedTypes|
        invariant clients == old(clients)
        invariant |built| == |planned| && Distinct(built)
        invariant forall k :: 0 <= k < |built| ==> fresh(built[k]) && NewClient(built[k], planned[k], maloja, now)
        invariant PlanTypes(SupportedTypes, configs, env, file) ==
          Prepend(planned, PlanTypes(SupportedTypes[i..], configs, env, file))
      {
        var clientType := SupportedTypes[i];
        assert SupportedTypes[i..][1..] == SupportedTypes[i + 1..];
        assert clientType == "maloja";
        ghost var step := ResolveMaloja(configs, env, file);
        ghost var rest := PlanTypes(SupportedTypes[i + 1..], configs, env, file);
        PrependAssoc(planned, [], rest);
        assert PlanTypes(SupportedTypes[i..], configs, env, file) ==
          if step.Err? then Err(step.error)
          else Prepend(OptionToSeq(step.value), PlanTypes(SupportedTypes[i + 1..], configs, env, file));
        var resolved := ResolveConfig(configs, env, file);
        if resolved.Err? {
          return Fail(resolved.error);
        }
        if resolved.value.None? {
          continue;
        }
        var clientConfig := resolved.value.value;
        PrependAssoc(planned, [clientConfig], rest);
        var c := new Client(clientType, clientConfig, maloja(clientConfig), now);
        built := built + [c];
        planned := planned + [clientConfig];
      }
      assert SupportedTypes[|SupportedTypes|..] == [];
      assert planned + [] == planned;
      assert Plan(configs, env, file) == Ok(planned);
      clients := built;
      o := Pass;
    }

    /** Sends the plays to every client in list order. Per client: refresh
        its history when forced or stale, then record and deliver each play
        that passes its filter. An exception ends that client's turn only and
        never leaves this method. `now` is the clock, `net` what each
        destination answers. */
    method Scrobble(data: PlayData, options: ScrobbleOptions, now: int, net: Network)
      returns (tracksScrobbled: seq<Play>)
      requires Valid()
      modifies clients
      ensures var turns := Turns(old(States(clients)), PlayList(data), ForceRefresh(options),
                                 CheckTime(options, now), net);
        && tracksScrobbled == Flatten(turns)
        && forall k :: 0 <= k < |clients| ==>
             clients[k].State() == turns[k].post &&
             clients[k].calls == old(clients[k].calls) + turns[k].calls
    {
      var plays := PlayList(data);
      var forceRefresh := ForceRefresh(options);
      var checkTime := CheckTime(options, now);
      ghost var olds := States(clients);
      ghost var turns := Turns(olds, plays, forceRefresh, checkTime, net);
      var cs := clients;
      ghost var oldCalls := CallLogs(cs);
      NoneServedYet(cs, turns);
      tracksScrobbled := [];
      var i := 0;
      while i < |cs|
        invariant 0 <= i <= |cs|
        invariant tracksScrobbled == FlattenUpTo(turns, i)
        invariant ServedUpTo(cs, i, turns, olds, oldCalls)
        invariant clients == cs
      {
        TurnAt(olds, plays, forceRefresh, checkTime, net, i);
        DistinctAt(cs, i);
        var attempted := ServeNext(cs, i, plays, forceRefresh, checkTime, net, turns, olds, oldCalls);
        tracksScrobbled := tracksScrobbled + attempted;
        i := i + 1;
      }
      FlattenUpToAll(turns);
      AllServed(cs, turns, olds, oldCalls);
    }
  }
}
