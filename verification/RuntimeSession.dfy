/** The session provider of components/runtime-provider.tsx, the network between, and the
    context switch of apps/api/src/in-memory-identity.ts. Requests may be lost, repeated,
    delayed or overtaken; every handler and every continuation after an `await` is one step. */
module RuntimeSession {
  import opened Text
  import opened Decimal

  /** An idempotency key: a prefix and a random part that never comes up twice. */
  datatype Key = Key(prefix: string, uuid: nat)

  const OIDC_START := "oidc-start"

  /** The name under which the client keeps the key of a workspace switch. */
  function Command(version: nat, workspace: string): string {
    "workspace:" + (Dec(version) + (":" + workspace))
  }

  lemma CommandInjective(v: nat, w: string, v': nat, w': string)
    requires Command(v, w) == Command(v', w')
    ensures v == v' && w == w'
  {
    var s, s' := Dec(v) + (":" + w), Dec(v') + (":" + w');
    assert s == Command(v, w)[|"workspace:"|..] == s';
    ReadNatOfDec(v, ":" + w);
    ReadNatOfDec(v', ":" + w');
    assert (":" + w)[1..] == w && (":" + w')[1..] == w';
  }

  lemma CommandIsNotOidcStart(v: nat, w: string)
    ensures Command(v, w) != OIDC_START
  {
    assert Command(v, w)[0] == 'w';
  }

  // ----- The client -----

  datatype Status = Loading | Anonymous | Authenticated | Failed

  datatype Me = Me(activeWorkspace: Option<string>)

  datatype ApiError = NoAccess | NotFound | Conflict | Storage

  datatype MeReply = MeOk(me: Me, version: nat) | MeFailed(error: ApiError)

  /** The provider's state; how many calls of `refreshMe` there have been, and which of
      them still await their reply; and how many calls of `signOut` do. */
  datatype Client = Client(
    status: Status,
    me: Option<Me>,
    version: Option<nat>,
    error: Option<ApiError>,
    workspaceScope: Option<string>,
    keys: map<string, Key>,
    minted: nat,
    refreshes: nat,
    refreshing: set<nat>,
    signingOut: nat)

  /** The client after the mount effect has called `refreshMe`. */
  const FRESH_CLIENT := Client(Loading, None, None, None, None, map[], 0, 1, {0}, 0)

  /** `refreshMe` up to its `await`. */
  function Refreshing(c: Client): Client {
    c.(refreshes := c.refreshes + 1, refreshing := c.refreshing + {c.refreshes})
  }

  /** `refreshMe` after its `await`, in the given call. */
  function Refreshed(c: Client, call: nat, reply: MeReply): Client
    requires call in c.refreshing
  {
    var t := c.(refreshing := c.refreshing - {call});
    match reply
    case MeFailed(error) =>
      t.(me := None, version := None, workspaceScope := None, error := Some(error),
         status := if error.NoAccess? then Anonymous else Failed)
    case MeOk(me, version) =>
      t.(me := Some(me), version := Some(version), workspaceScope := me.activeWorkspace, error := None,
         status := Authenticated)
  }

  /** `signOut` up to its `await`; the key it sends is not kept. */
  function SigningOut(c: Client): Client {
    c.(signingOut := c.signingOut + 1, minted := c.minted + 1)
  }

  /** `signOut` after its `await`. */
  function SignedOut(c: Client): Client
    requires c.signingOut > 0
  {
    c.(me := None, version := None, workspaceScope := None, error := None, status := Anonymous,
       signingOut := c.signingOut - 1)
  }

  /** The key for a command: the one kept for it, or a new one. */
  function KeyFor(c: Client, command: string, prefix: string): Key {
    if command in c.keys then c.keys[command] else Key(prefix, c.minted)
  }

  function WithKey(c: Client, command: string, prefix: string): Client {
    c.(keys := c.keys[command := KeyFor(c, command, prefix)],
       minted := if command in c.keys then c.minted else c.minted + 1)
  }

  const SWITCH_PREFIX := "web-workspace-switch"
  const OIDC_PREFIX := "web-oidc-start"
  const REVOKE_PREFIX := "web-session-revoke"

  /** `switchWorkspace` after its `await`; a success calls `refreshMe`. */
  function Switched(c: Client, version: nat, workspace: string, failure: Option<ApiError>): Client {
    if failure.Some? then c.(error := failure)
    else Refreshing(c.(keys := c.keys - {Command(version, workspace)}))
  }

  class RuntimeProvider {
    var sessionStatus: Status
    var me: Option<Me>
    var sessionVersion: Option<nat>
    var sessionError: Option<ApiError>
    var scopeWorkspaceId: Option<string>
    var commandKeys: map<string, Key>
    var minted: nat
    var refreshes: nat
    var refreshing: set<nat>
    var signingOut: nat

    ghost function Now(): Client
      reads this
    {
      Client(sessionStatus, me, sessionVersion, sessionError, scopeWorkspaceId, commandKeys, minted, refreshes,
             refreshing, signingOut)
    }

    constructor ()
      ensures Now() == FRESH_CLIENT
    {
      sessionStatus, me, sessionVersion, sessionError := Loading, None, None, None;
      scopeWorkspaceId, commandKeys, minted := None, map[], 0;
      refreshes, refreshing, signingOut := 0, {}, 0;
      new;
      RefreshMe();
    }

    method RefreshMe()
      modifies this
      ensures Now() == Refreshing(old(Now()))
    {
      refreshing := refreshing + {refreshes};
      refreshes := refreshes + 1;
    }

    method ResumeRefreshMe(call: nat, result: MeReply) returns (ok: bool)
      requires call in refreshing
      modifies this
      ensures Now() == Refreshed(old(Now()), call, result) && ok == result.MeOk?
    {
      refreshing := refreshing - {call};
      match result {
        case MeFailed(error) =>
          me := None;
          sessionVersion := None;
          scopeWorkspaceId := None;
          sessionError := Some(error);
          sessionStatus := if error.NoAccess? then Anonymous else Failed;
          return false;
        case MeOk(data, version) =>
          me := Some(data);
          sessionVersion := Some(version);
          scopeWorkspaceId := data.activeWorkspace;
          sessionError := None;
          sessionStatus := Authenticated;
          return true;
      }
    }

    method IdempotencyKey(prefix: string) returns (key: Key)
      modifies this`minted
      ensures key == Key(prefix, old(minted)) && minted == old(minted) + 1
    {
      key := Key(prefix, minted);
      minted := minted + 1;
    }

    method StartOrganizationLogin() returns (key: Key)
      modifies this
      ensures Now() == WithKey(old(Now()), OIDC_START, OIDC_PREFIX) && key == commandKeys[OIDC_START]
    {
      if OIDC_START in commandKeys {
        key := commandKeys[OIDC_START];
      } else {
        key := IdempotencyKey(OIDC_PREFIX);
      }
      commandKeys := commandKeys[OIDC_START := key];
    }

    /** `switchWorkspace` up to its `await`: the key and version it sends, if it sends. */
    method SwitchWorkspace(workspaceId: string) returns (sent: Option<(Key, nat)>)
      modifies this
      ensures old(sessionVersion).None? ==> sent == None && Now() == old(Now())
      ensures old(sessionVersion).Some? ==>
                var command := Command(old(sessionVersion).value, workspaceId);
                sent == Some((KeyFor(old(Now()), command, SWITCH_PREFIX), old(sessionVersion).value)) &&
                Now() == WithKey(old(Now()), command, SWITCH_PREFIX)
    {
      if sessionVersion == None {
        return None;
      }
      var command := Command(sessionVersion.value, workspaceId);
      var key;
      if command in commandKeys {
        key := commandKeys[command];
      } else {
        key := IdempotencyKey(SWITCH_PREFIX);
      }
      commandKeys := commandKeys[command := key];
      sent := Some((key, sessionVersion.value));
    }

    method ResumeSwitchWorkspace(version: nat, workspaceId: string, failure: Option<ApiError>)
      modifies this
      ensures Now() == Switched(old(Now()), version, workspaceId, failure)
    {
      if failure.Some? {
        sessionError := failure;
        return;
      }
      commandKeys := commandKeys - {Command(version, workspaceId)};
      RefreshMe();
    }

    method SignOut() returns (key: Key)
      modifies this
      ensures Now() == SigningOut(old(Now())) && key == Key(REVOKE_PREFIX, old(minted))
    {
      key := IdempotencyKey(REVOKE_PREFIX);
      signingOut := signingOut + 1;
    }

    method ResumeSignOut()
      requires signingOut > 0
      modifies this
      ensures Now() == SignedOut(old(Now()))
    {
      signingOut := signingOut - 1;
      me := None;
      sessionVersion := None;
      scopeWorkspaceId := None;
      sessionError := None;
      sessionStatus := Anonymous;
    }
  }

  // ----- The server -----

  /** What the browser's cookie holds: a session, and the number of its access token.
      Tokens count from one; number zero is never valid. */
  datatype Credential = Credential(session: nat, token: nat)

  datatype Request = Request(credential: Credential, key: Key, version: nat, workspace: string)

  datatype Effect = Effect(session: nat, version: nat, workspace: string, key: Key)

  /** Sessions with their versions and with the token that each accepts, those revoked, the
      switches already carried out under each session's keys, and a log of them. */
  datatype Server = Server(
    versions: map<nat, nat>,
    tokens: map<nat, nat>,
    revoked: set<nat>,
    done: map<(nat, Key), (nat, string)>,
    effects: seq<Effect>)

  datatype Reply = Granted | Forbidden | Unreachable | KeyConflict | StaleVersion

  /** `credentialSession`: the session is there, not revoked, and the token is its own. */
  predicate Authorised(server: Server, c: Credential) {
    && c.session in server.versions && c.session in server.tokens
    && c.session !in server.revoked && c.token == server.tokens[c.session]
  }

  /** `switchContext`; whether the target is reachable is for the rest of the server. */
  function ReplyTo(server: Server, r: Request, reachable: bool): Reply {
    var session := r.credential.session;
    if !Authorised(server, r.credential) then Forbidden
    else if !reachable then Unreachable
    else if (session, r.key) in server.done then
      if server.done[(session, r.key)] == (r.version, r.workspace) then Granted else KeyConflict
    else if r.version != server.versions[session] then StaleVersion
    else Granted
  }

  function Served(server: Server, r: Request, reachable: bool): Server {
    var session := r.credential.session;
    if ReplyTo(server, r, reachable).Granted? && (session, r.key) !in server.done then
      server.(versions := server.versions[session := r.version + 1],
              done := server.done[(session, r.key) := (r.version, r.workspace)],
              effects := server.effects + [Effect(session, r.version, r.workspace, r.key)])
    else server
  }

  // ----- Both, with a network between -----

  /** `requests` are the switches sent, `granted` those the server has answered with a
      success, `waiting` those whose call has not returned yet, and `cookie` what the
      browser sends along. The rest is history: the command each key was made for, the
      commands of which a success has come back, the keys dropped from the client's map. */
  datatype World = World(
    client: Client,
    server: Server,
    cookie: Credential,
    requests: seq<Request>,
    granted: set<nat>,
    waiting: set<nat>,
    owner: map<Key, string>,
    succeeded: set<string>,
    retired: set<Key>)

  datatype Event =
    | OidcStart
    | Switch(workspace: string)
    | Serve(i: nat, reachable: bool)
    | Return(i: nat, failure: Option<ApiError>)
    | Refresh
    | RefreshReturns(call: nat, reply: MeReply)
    | SignOut
    | SignOutReturns
    | SignIn(session: nat)
    | OtherCommand(session: nat)
    | Rotate(session: nat, stored: bool)
    | Expire(session: nat)
    | Revoke(session: nat)

  predicate Live(server: Server, session: nat) {
    session in server.versions && session in server.tokens && session !in server.revoked
  }

  /** Besides the client's own steps: someone signs in; another tab switches; a token is
      renewed, and the new one stored in the cookie or lost; a token expires; a session is
      revoked, whether by `signOut` or otherwise. */
  predicate Enabled(w: World, event: Event) {
    match event
    case Switch(_) => w.client.version.Some?
    case Serve(i, _) => i < |w.requests|
    case Return(i, failure) => i in w.waiting && i < |w.requests| && (failure.None? ==> i in w.granted)
    case RefreshReturns(call, _) => call in w.client.refreshing
    case SignOutReturns => w.client.signingOut > 0
    case SignIn(session) => session !in w.server.versions
    case OtherCommand(session) => Live(w.server, session)
    case Rotate(session, _) => Live(w.server, session)
    case Expire(session) => Live(w.server, session)
    case Revoke(session) => Live(w.server, session)
    case _ => true
  }

  function Sent(w: World, workspace: string): Request
    requires w.client.version.Some?
  {
    var v := w.client.version.value;
    Request(w.cookie, KeyFor(w.client, Command(v, workspace), SWITCH_PREFIX), v, workspace)
  }

  /** The client looks up or makes the key for a command. */
  function Keyed(w: World, command: string, prefix: string): World {
    w.(client := WithKey(w.client, command, prefix),
       owner := if command in w.client.keys then w.owner else w.owner[KeyFor(w.client, command, prefix) := command])
  }

  function Returned(w: World, r: Request, failure: Option<ApiError>): World {
    var t := w.(client := Switched(w.client, r.version, r.workspace, failure));
    if failure.Some? then t
    else
      t.(succeeded := w.succeeded + {CommandOf(r)},
         retired := if CommandOf(r) in w.client.keys then w.retired + {w.client.keys[CommandOf(r)]} else w.retired)
  }

  function Step(w: World, event: Event): World
    requires Enabled(w, event)
  {
    match event
    case OidcStart => Keyed(w, OIDC_START, OIDC_PREFIX)
    case Switch(workspace) =>
      Keyed(w, Command(w.client.version.value, workspace), SWITCH_PREFIX)
        .(requests := w.requests + [Sent(w, workspace)], waiting := w.waiting + {|w.requests|})
    case Serve(i, reachable) =>
      w.(server := Served(w.server, w.requests[i], reachable),
         granted := if ReplyTo(w.server, w.requests[i], reachable).Granted? then w.granted + {i} else w.granted)
    case Return(i, failure) => Returned(w, w.requests[i], failure).(waiting := w.waiting - {i})
    case Refresh => w.(client := Refreshing(w.client))
    case RefreshReturns(call, reply) => w.(client := Refreshed(w.client, call, reply))
    case SignOut => w.(client := SigningOut(w.client))
    case SignOutReturns => w.(client := SignedOut(w.client))
    case SignIn(session) => w.(cookie := Credential(session, 1), server := SignedIn(w.server, session))
    case OtherCommand(session) => w.(server := Raised(w.server, session))
    case Rotate(session, stored) =>
      var server := Raised(Retokened(w.server, session), session);
      w.(server := server,
         cookie := if stored then Credential(session, server.tokens[session]) else w.cookie)
    case Expire(session) => w.(server := Retokened(w.server, session))
    case Revoke(session) =>
      var server := Raised(w.server, session);
      w.(server := server.(revoked := server.revoked + {session}))
  }

  function SignedIn(server: Server, session: nat): Server {
    server.(versions := server.versions[session := 1], tokens := server.tokens[session := 1])
  }

  function Raised(server: Server, session: nat): Server
    requires session in server.versions
  {
    server.(versions := server.versions[session := server.versions[session] + 1])
  }

  /** The token is replaced. When it has merely expired, nobody holds the next number. */
  function Retokened(server: Server, session: nat): Server
    requires session in server.tokens
  {
    server.(tokens := server.tokens[session := server.tokens[session] + 1])
  }

  const START := World(FRESH_CLIENT, Server(map[], map[], {}, map[], []), Credential(0, 0), [], {}, {}, map[], {}, {})

  ghost predicate Possible(w: World, events: seq<Event>)
    decreases |events|
  {
    events != [] ==> Enabled(w, events[0]) && Possible(Step(w, events[0]), events[1..])
  }

  function Run(w: World, events: seq<Event>): World
    requires Possible(w, events)
    decreases |events|
  {
    if events == [] then w else Run(Step(w, events[0]), events[1..])
  }

  // ----- What every step keeps -----

  function CommandOf(r: Request): string {
    Command(r.version, r.workspace)
  }

  /** A key belongs for ever to the command it was made for: in the client's map and in
      every request. It stays in the map until a success of that command comes back. */
  ghost predicate KeysBelong(client: Client, owner: map<Key, string>, succeeded: set<string>, retired: set<Key>) {
    && (forall k :: k in owner ==> k.uuid < client.minted)
    && (forall c :: c in client.keys ==> client.keys[c] in owner && owner[client.keys[c]] == c)
    && (forall k :: k in owner ==> k in retired || (owner[k] in client.keys && client.keys[owner[k]] == k))
    && (forall k :: k in retired ==> k in owner && owner[k] in succeeded)
  }

  ghost predicate RequestsBelong(requests: seq<Request>, owner: map<Key, string>) {
    forall i :: 0 <= i < |requests| ==> requests[i].key in owner && owner[requests[i].key] == CommandOf(requests[i])
  }

  /** No credential is newer than the token that its session accepts. */
  predicate Issued(server: Server, c: Credential) {
    if c.session in server.tokens then c.token <= server.tokens[c.session] else c.token == 0
  }

  ghost predicate CredentialsIssued(w: World) {
    && w.server.versions.Keys == w.server.tokens.Keys
    && (forall session :: session in w.server.tokens ==> w.server.tokens[session] > 0)
    && Issued(w.server, w.cookie)
    && (forall i :: 0 <= i < |w.requests| ==> Issued(w.server, w.requests[i].credential))
    && (forall i :: i in w.waiting ==> i < |w.requests|)
  }

  /** What was carried out was asked for under its key, and once a version. */
  ghost predicate EffectsInOrder(server: Server, owner: map<Key, string>) {
    && (forall k :: k in server.done ==> k.1 in owner && owner[k.1] == Command(server.done[k].0, server.done[k].1))
    && (forall n :: 0 <= n < |server.effects| ==> CarriedOut(server, server.effects[n]))
    && (forall m, n :: 0 <= m < n < |server.effects| && server.effects[m].session == server.effects[n].session ==>
          server.effects[m].version < server.effects[n].version)
  }

  ghost predicate CarriedOut(server: Server, e: Effect) {
    && (e.session, e.key) in server.done && server.done[(e.session, e.key)] == (e.version, e.workspace)
    && e.session in server.versions && e.version < server.versions[e.session]
  }

  /** The four session fields always come from one reply. */
  predicate SessionCoherent(c: Client) {
    && (c.status.Authenticated? <==> c.me.Some?)
    && (c.me.Some? <==> c.version.Some?)
    && c.workspaceScope == (if c.me.Some? then c.me.value.activeWorkspace else None)
  }

  ghost predicate Inv(w: World) {
    && KeysBelong(w.client, w.owner, w.succeeded, w.retired)
    && RequestsBelong(w.requests, w.owner)
    && EffectsInOrder(w.server, w.owner)
    && CredentialsIssued(w)
    && SessionCoherent(w.client)
  }

  lemma KeyedInv(w: World, command: string, prefix: string)
    requires Inv(w)
    ensures Inv(Keyed(w, command, prefix))
    ensures var t := Keyed(w, command, prefix);
            command in t.client.keys && t.client.keys[command] == KeyFor(w.client, command, prefix)
  {
    var t := Keyed(w, command, prefix);
    var key := KeyFor(w.client, command, prefix);
    assert command !in w.client.keys ==> key !in w.owner;
    assert forall k :: k in w.owner ==> k in t.owner && t.owner[k] == w.owner[k];
    assert KeysBelong(t.client, t.owner, t.succeeded, t.retired);
  }

  lemma ReturnedInv(w: World, r: Request, failure: Option<ApiError>)
    requires Inv(w)
    ensures Inv(Returned(w, r, failure))
  {
    var t := Returned(w, r, failure);
    assert KeysBelong(t.client, t.owner, t.succeeded, t.retired);
  }

  /** The server never sees a key that was used for another command before. */
  lemma NoKeyConflict(w: World, i: nat, reachable: bool)
    requires Inv(w) && i < |w.requests|
    ensures ReplyTo(w.server, w.requests[i], reachable) != KeyConflict
  {
    var r := w.requests[i];
    var session := r.credential.session;
    if (session, r.key) in w.server.done {
      var was := w.server.done[(session, r.key)];
      CommandInjective(was.0, was.1, r.version, r.workspace);
    }
  }

  lemma ServedInv(server: Server, r: Request, reachable: bool, owner: map<Key, string>)
    requires EffectsInOrder(server, owner) && r.key in owner && owner[r.key] == CommandOf(r)
    ensures EffectsInOrder(Served(server, r, reachable), owner)
  {
    var t := Served(server, r, reachable);
    if t != server {
      forall n | 0 <= n < |t.effects|
        ensures CarriedOut(t, t.effects[n])
      {
        if n < |server.effects| {
          assert CarriedOut(server, server.effects[n]);
        }
      }
      assert forall n :: 0 <= n < |server.effects| && server.effects[n].session == r.credential.session ==>
          CarriedOut(server, server.effects[n]);
    }
  }

  lemma VersionsMayGrow(server: Server, t: Server, owner: map<Key, string>)
    requires EffectsInOrder(server, owner) && t.done == server.done && t.effects == server.effects
    requires forall s :: s in server.versions ==> s in t.versions && server.versions[s] <= t.versions[s]
    ensures EffectsInOrder(t, owner)
  {
    forall n | 0 <= n < |t.effects|
      ensures CarriedOut(t, t.effects[n])
    {
      assert CarriedOut(server, server.effects[n]);
    }
  }

  lemma StepIssues(w: World, event: Event)
    requires CredentialsIssued(w) && Enabled(w, event)
    ensures CredentialsIssued(Step(w, event))
  {
  }

  /** What others do to the server. */
  predicate Elsewhere(event: Event) {
    event.SignIn? || event.OtherCommand? || event.Rotate? || event.Expire? || event.Revoke?
  }

  lemma ElsewhereInv(w: World, event: Event)
    requires Inv(w) && Enabled(w, event) && Elsewhere(event)
    ensures Inv(Step(w, event))
  {
    StepIssues(w, event);
    VersionsMayGrow(w.server, Step(w, event).server, w.owner);
  }

  lemma CommandInv(w: World, event: Event)
    requires Inv(w) && Enabled(w, event) && (event.OidcStart? || event.Switch?)
    ensures Inv(Step(w, event))
  {
    StepIssues(w, event);
    match event
    case OidcStart => KeyedInv(w, OIDC_START, OIDC_PREFIX);
    case Switch(workspace) => KeyedInv(w, Command(w.client.version.value, workspace), SWITCH_PREFIX);
  }

  lemma ServeInv(w: World, i: nat, reachable: bool)
    requires Inv(w) && i < |w.requests|
    ensures Inv(Step(w, Serve(i, reachable)))
  {
    StepIssues(w, Serve(i, reachable));
    ServedInv(w.server, w.requests[i], reachable, w.owner);
  }

  lemma ReturnInv(w: World, i: nat, failure: Option<ApiError>)
    requires Inv(w) && Enabled(w, Return(i, failure))
    ensures Inv(Step(w, Return(i, failure)))
  {
    StepIssues(w, Return(i, failure));
    ReturnedInv(w, w.requests[i], failure);
  }

  /** What else comes back to the client touches neither keys nor effects. */
  lemma SessionStepInv(w: World, event: Event)
    requires Inv(w) && Enabled(w, event)
    requires event.Refresh? || event.RefreshReturns? || event.SignOut? || event.SignOutReturns?
    ensures Inv(Step(w, event))
  {
    var t := Step(w, event);
    StepIssues(w, event);
    assert KeysBelong(t.client, t.owner, t.succeeded, t.retired);
  }

  lemma StepInv(w: World, event: Event)
    requires Inv(w) && Enabled(w, event)
    ensures Inv(Step(w, event))
  {
    match event
    case OidcStart => CommandInv(w, event);
    case Switch(_) => CommandInv(w, event);
    case Serve(i, reachable) => ServeInv(w, i, reachable);
    case Return(i, failure) => ReturnInv(w, i, failure);
    case Refresh => SessionStepInv(w, event);
    case RefreshReturns(_, _) => SessionStepInv(w, event);
    case SignOut => SessionStepInv(w, event);
    case SignOutReturns => SessionStepInv(w, event);
    case _ => ElsewhereInv(w, event);
  }

  lemma {:induction false} RunInv(w: World, events: seq<Event>)
    requires Inv(w) && Possible(w, events)
    ensures Inv(Run(w, events))
    decreases |events|
  {
    if events != [] {
      StepInv(w, events[0]);
      RunInv(Step(w, events[0]), events[1..]);
    }
  }

  // ----- What that means -----

  /** However requests are lost, repeated or overtaken, no session carries out two switches
      at the same version, and it carries them out in the order of the versions. */
  lemma SwitchedAtMostOnce(events: seq<Event>, m: nat, n: nat)
    requires Possible(START, events) && m < n < |Run(START, events).server.effects|
    ensures var effects := Run(START, events).server.effects;
            effects[m].session == effects[n].session ==> effects[m].version < effects[n].version
  {
    RunInv(START, events);
  }

  /** A switch that was carried out but whose success never came back: pressing again sends
      the same key, and the server answers with that success instead of a conflict, exactly
      while it still accepts the browser's token; in any case it does nothing twice. */
  lemma LostSuccessIsReplayed(events: seq<Event>, n: nat, reachable: bool)
    requires Possible(START, events)
    requires n < |Run(START, events).server.effects|
    requires var w, e := Run(START, events), Run(START, events).server.effects[n];
             w.client.version == Some(e.version) && w.cookie.session == e.session &&
             Command(e.version, e.workspace) !in w.succeeded
    ensures var w, e := Run(START, events), Run(START, events).server.effects[n];
            Sent(w, e.workspace) == Request(w.cookie, e.key, e.version, e.workspace) &&
            ReplyTo(w.server, Sent(w, e.workspace), true) ==
              (if Authorised(w.server, w.cookie) then Granted else Forbidden) &&
            Served(w.server, Sent(w, e.workspace), reachable) == w.server
  {
    RunInv(START, events);
    var w := Run(START, events);
    var e := w.server.effects[n];
    assert CarriedOut(w.server, e);
    assert w.owner[e.key] == Command(e.version, e.workspace);
    assert e.key !in w.retired;
  }

  /** All attempts at a command before a success of it comes back carry one key. */
  lemma AttemptsShareKey(events: seq<Event>, i: nat, j: nat)
    requires Possible(START, events)
    requires i < |Run(START, events).requests| && j < |Run(START, events).requests|
    requires var w := Run(START, events);
             CommandOf(w.requests[i]) == CommandOf(w.requests[j]) && CommandOf(w.requests[i]) !in w.succeeded
    ensures Run(START, events).requests[i].key == Run(START, events).requests[j].key
  {
    RunInv(START, events);
  }

  /** And different commands never share one. */
  lemma CommandsDoNotShareKeys(events: seq<Event>, i: nat, j: nat)
    requires Possible(START, events)
    requires i < |Run(START, events).requests| && j < |Run(START, events).requests|
    requires Run(START, events).requests[i].key == Run(START, events).requests[j].key
    ensures var r, r' := Run(START, events).requests[i], Run(START, events).requests[j];
            r.version == r'.version && r.workspace == r'.workspace
  {
    RunInv(START, events);
    var r, r' := Run(START, events).requests[i], Run(START, events).requests[j];
    CommandInjective(r.version, r.workspace, r'.version, r'.workspace);
  }

  /** No run makes the server refuse a key, and none leaves the session fields at odds. */
  lemma RunsStayCoherent(events: seq<Event>, i: nat, reachable: bool)
    requires Possible(START, events) && i < |Run(START, events).requests|
    ensures ReplyTo(Run(START, events).server, Run(START, events).requests[i], reachable) != KeyConflict
    ensures SessionCoherent(Run(START, events).client)
  {
    RunInv(START, events);
    NoKeyConflict(Run(START, events), i, reachable);
  }

  lemma RunCons(w: World, event: Event, rest: seq<Event>)
    requires Enabled(w, event) && Possible(Step(w, event), rest)
    ensures Possible(w, [event] + rest) && Run(w, [event] + rest) == Run(Step(w, event), rest)
  {
    assert ([event] + rest)[1..] == rest;
  }

  lemma RunOfFour(w0: World, e0: Event, w1: World, e1: Event, w2: World, e2: Event, w3: World, e3: Event)
    requires Enabled(w0, e0) && w1 == Step(w0, e0) && Enabled(w1, e1) && w2 == Step(w1, e1)
    requires Enabled(w2, e2) && w3 == Step(w2, e2) && Enabled(w3, e3)
    ensures Possible(w0, [e0, e1, e2, e3]) && Run(w0, [e0, e1, e2, e3]) == Step(w3, e3)
  {
    RunCons(w3, e3, []);
    RunCons(w2, e2, [e3]);
    RunCons(w1, e1, [e2, e3]);
    RunCons(w0, e0, [e1, e2, e3]);
    assert [e3] == [e3] + [] && [e2, e3] == [e2] + [e3] && [e1, e2, e3] == [e1] + [e2, e3];
    assert [e0, e1, e2, e3] == [e0] + [e1, e2, e3];
  }

  lemma RunOfFive(w: World, e: Event, w0: World, e0: Event, w1: World, e1: Event, w2: World, e2: Event,
                  w3: World, e3: Event)
    requires Enabled(w, e) && w0 == Step(w, e)
    requires Enabled(w0, e0) && w1 == Step(w0, e0) && Enabled(w1, e1) && w2 == Step(w1, e1)
    requires Enabled(w2, e2) && w3 == Step(w2, e2) && Enabled(w3, e3)
    ensures Possible(w, [e, e0, e1, e2, e3]) && Run(w, [e, e0, e1, e2, e3]) == Step(w3, e3)
  {
    RunOfFour(w0, e0, w1, e1, w2, e2, w3, e3);
    RunCons(w, e, [e0, e1, e2, e3]);
    assert [e, e0, e1, e2, e3] == [e] + [e0, e1, e2, e3];
  }

  // ----- Signing out -----

  /** The user does not ask again who they are. */
  predicate Quiet(events: seq<Event>) {
    forall event :: event in events ==> !event.Refresh?
  }

  /** Whatever else still comes, the client stays signed out. */
  ghost predicate StaysSignedOut(w: World) {
    forall events :: Possible(w, events) && Quiet(events) ==> Run(w, events).client.status == Anonymous
  }

  /** The switch may still come back as a success, which asks on its own who the user is:
      it has been granted, or the server accepts its token and either has carried it out or
      has not passed its version. */
  predicate Open(w: World, i: nat)
    requires i < |w.requests|
  {
    var r := w.requests[i];
    i in w.granted ||
    (Authorised(w.server, r.credential) &&
     ((r.credential.session, r.key) in w.server.done || w.server.versions[r.credential.session] <= r.version))
  }

  /** Nothing outstanding can sign the client in. */
  ghost predicate Settled(w: World) {
    && w.client.refreshing == {}
    && (forall i :: i in w.waiting && i < |w.requests| ==> !Open(w, i))
  }

  lemma ServedStaysClosed(w: World, j: nat, reachable: bool, i: nat)
    requires Inv(w) && i < |w.requests| && j < |w.requests| && !Open(w, i)
    requires i == j ==> i in w.waiting
    ensures !Open(Step(w, Serve(j, reachable)), i)
  {
    var r, q := w.requests[i], w.requests[j];
    if r.key == q.key {
      CommandInjective(r.version, r.workspace, q.version, q.workspace);
    }
    if i == j {
      NoKeyConflict(w, i, reachable);
    }
  }

  lemma StepStaysSettled(w: World, event: Event)
    requires Inv(w) && Settled(w) && w.client.status == Anonymous && Enabled(w, event) && !event.Refresh?
    ensures Settled(Step(w, event)) && Step(w, event).client.status == Anonymous
  {
    var t := Step(w, event);
    forall i | i in t.waiting && i < |t.requests|
      ensures !Open(t, i)
    {
      assert i in w.waiting && !Open(w, i);
      if event.Serve? {
        ServedStaysClosed(w, event.i, event.reachable, i);
      }
    }
  }

  lemma {:induction false} SettledStaysSignedOut(w: World, events: seq<Event>)
    requires Inv(w) && Settled(w) && w.client.status == Anonymous && Possible(w, events) && Quiet(events)
    ensures Run(w, events).client.status == Anonymous
    decreases |events|
  {
    if events != [] {
      assert events[0] in events;
      StepInv(w, events[0]);
      StepStaysSettled(w, events[0]);
      SettledStaysSignedOut(Step(w, events[0]), events[1..]);
    }
  }

  const SOMEONE := MeOk(Me(None), 0)

  lemma ReplySignsIn(w: World, call: nat) returns (events: seq<Event>)
    requires call in w.client.refreshing
    ensures Possible(w, events) && Quiet(events) && Run(w, events).client.status == Authenticated
  {
    events := [RefreshReturns(call, SOMEONE)];
    RunCons(w, events[0], []);
    assert events == [events[0]] + [];
  }

  /** A switch that is open can come back as a success, and the reply to the `refreshMe`
      that it calls signs the client in. */
  lemma {:induction false} OpenSignsIn(w: World, i: nat) returns (events: seq<Event>)
    requires Inv(w) && i in w.waiting && i < |w.requests| && Open(w, i)
    ensures Possible(w, events) && Quiet(events) && Run(w, events).client.status == Authenticated
    decreases i !in w.granted, LeftToGo(w, i)
  {
    var r := w.requests[i];
    var session := r.credential.session;
    var event: Event, rest: seq<Event>;
    if i in w.granted {
      event := Return(i, None);
      rest := ReplySignsIn(Step(w, event), w.client.refreshes);
    } else if (session, r.key) in w.server.done || w.server.versions[session] == r.version {
      event := Serve(i, true);
      NoKeyConflict(w, i, true);
      StepInv(w, event);
      rest := OpenSignsIn(Step(w, event), i);
    } else {
      event := OtherCommand(session);
      StepInv(w, event);
      rest := OpenSignsIn(Step(w, event), i);
    }
    events := [event] + rest;
    RunCons(w, event, rest);
  }

  /** How far the session's version is behind that of the request. */
  function LeftToGo(w: World, i: nat): nat
    requires i < |w.requests|
  {
    var r := w.requests[i];
    if r.credential.session in w.server.versions && w.server.versions[r.credential.session] <= r.version
    then r.version - w.server.versions[r.credential.session]
    else 0
  }

  lemma SettledExactly(w: World)
    requires Inv(w) && w.client.status == Anonymous
    ensures StaysSignedOut(w) <==> Settled(w)
  {
    if Settled(w) {
      forall events | Possible(w, events) && Quiet(events)
        ensures Run(w, events).client.status == Anonymous
      {
        SettledStaysSignedOut(w, events);
      }
    } else if w.client.refreshing != {} {
      var call :| call in w.client.refreshing;
      var events := ReplySignsIn(w, call);
      assert Run(w, events).client.status != Anonymous;
    } else {
      var i :| i in w.waiting && i < |w.requests| && Open(w, i);
      var events := OpenSignsIn(w, i);
      assert Run(w, events).client.status != Anonymous;
    }
  }

  /** In every run: after `signOut` has returned, the client stays signed out, whatever
      still comes short of asking again, if and only if no reply to `refreshMe` and no open
      switch is outstanding. For that it is enough that nothing is outstanding at all. */
  lemma SignOutLastsExactly(events: seq<Event>)
    requires Possible(START, events) && Enabled(Run(START, events), SignOutReturns)
    ensures var w := Run(START, events);
            Step(w, SignOutReturns).client.status == Anonymous &&
            (StaysSignedOut(Step(w, SignOutReturns)) <==>
             w.client.refreshing == {} && forall i :: i in w.waiting && i < |w.requests| ==> !Open(w, i)) &&
            (w.client.refreshing == {} && w.waiting == {} ==> StaysSignedOut(Step(w, SignOutReturns)))
  {
    var w := Run(START, events);
    var t := Step(w, SignOutReturns);
    RunInv(START, events);
    StepInv(w, SignOutReturns);
    SettledExactly(t);
    assert forall i :: 0 <= i < |w.requests| ==> (Open(t, i) <==> Open(w, i));
  }

  /** It does happen: a user who asks again and then signs out is signed in by the answer. */
  lemma LateReplySignsIn(reply: MeReply)
    requires reply.MeOk?
    ensures var events := [RefreshReturns(0, reply), Refresh, SignOut, SignOutReturns, RefreshReturns(1, reply)];
            Possible(START, events) && Run(START, events).client.status == Authenticated &&
            Run(START, events).client.signingOut == 0
  {
    var e0, e1, e2, e3, e4 := RefreshReturns(0, reply), Refresh, SignOut, SignOutReturns, RefreshReturns(1, reply);
    var w1 := Step(START, e0);
    var w2 := Step(w1, e1);
    var w3 := Step(w2, e2);
    var w4 := Step(w3, e3);
    RunOfFive(START, e0, w1, e1, w2, e2, w3, e3, w4, e4);
  }

  /** A session in which a switch is on its way when the user signs out. */
  lemma SwitchOnItsWay() returns (w: World)
    ensures var events := [SignIn(0), RefreshReturns(0, MeOk(Me(None), 1)), Switch("x"), SignOut];
            Possible(START, events) && Run(START, events) == w
    ensures w.client.signingOut == 1 && w.client.refreshing == {} && w.client.refreshes == 1 && 0 in w.waiting
    ensures |w.requests| == 1 && Authorised(w.server, w.requests[0].credential) && w.server.done == map[]
    ensures w.requests[0].version == w.server.versions[w.requests[0].credential.session]
  {
    var e0, e1, e2, e3 := SignIn(0), RefreshReturns(0, MeOk(Me(None), 1)), Switch("x"), SignOut;
    var w1 := Step(START, e0);
    var w2 := Step(w1, e1);
    var w3 := Step(w2, e2);
    RunOfFour(START, e0, w1, e1, w2, e2, w3, e3);
    w := Step(w3, e3);
  }

  lemma SwitchReturns(w: World, reply: MeReply)
    requires reply.MeOk? && w.client.signingOut == 1 && w.client.refreshes == 1 && 0 in w.waiting
    requires |w.requests| == 1 && Authorised(w.server, w.requests[0].credential) && w.server.done == map[]
    requires w.requests[0].version == w.server.versions[w.requests[0].credential.session]
    ensures var after := [SignOutReturns, Serve(0, true), Return(0, None), RefreshReturns(1, reply)];
            Possible(w, after) && Run(w, after).client.status == Authenticated
  {
    var e0, e1, e2, e3 := SignOutReturns, Serve(0, true), Return(0, None), RefreshReturns(1, reply);
    var w1 := Step(w, e0);
    var w2 := Step(w1, e1);
    var w3 := Step(w2, e2);
    RunOfFour(w, e0, w1, e1, w2, e2, w3, e3);
  }

  /** And it happens without asking: the success of a switch that was on its way asks. */
  lemma SwitchSignsIn(reply: MeReply)
    requires reply.MeOk?
    ensures var before := [SignIn(0), RefreshReturns(0, MeOk(Me(None), 1)), Switch("x"), SignOut];
            var after := [SignOutReturns, Serve(0, true), Return(0, None), RefreshReturns(1, reply)];
            Possible(START, before) && Run(START, before).client.refreshing == {} &&
            Possible(Run(START, before), after) && Quiet(after) &&
            Run(Run(START, before), after).client.status == Authenticated
  {
    var w := SwitchOnItsWay();
    SwitchReturns(w, reply);
  }

  // ----- Replies that overtake one another -----

  datatype Session = Session(status: Status, me: Option<Me>, version: Option<nat>, workspaceScope: Option<string>)

  function SessionOf(c: Client): Session {
    Session(c.status, c.me, c.version, c.workspaceScope)
  }

  /** The session that a reply speaks of. */
  function SessionFrom(reply: MeReply): Session {
    match reply
    case MeFailed(error) => Session(if error.NoAccess? then Anonymous else Failed, None, None, None)
    case MeOk(me, version) => Session(Authenticated, Some(me), Some(version), me.activeWorkspace)
  }

  predicate AnsweredBy(events: seq<Event>, answers: nat -> MeReply) {
    forall event :: event in events && event.RefreshReturns? ==> event.reply == answers(event.call)
  }

  /** Of the calls answered since the client last signed out: the one answered last. */
  function LastAnswered(last: Option<nat>, events: seq<Event>): Option<nat>
    decreases |events|
  {
    if events == [] then last
    else
      match events[0]
      case RefreshReturns(call, _) => LastAnswered(Some(call), events[1..])
      case SignOutReturns => LastAnswered(None, events[1..])
      case _ => LastAnswered(last, events[1..])
  }

  /** And the newest. */
  function NewestAnswered(newest: Option<nat>, events: seq<Event>): Option<nat>
    decreases |events|
  {
    if events == [] then newest
    else
      match events[0]
      case RefreshReturns(call, _) =>
        NewestAnswered(if newest.Some? && newest.value > call then newest else Some(call), events[1..])
      case SignOutReturns => NewestAnswered(None, events[1..])
      case _ => NewestAnswered(newest, events[1..])
  }

  lemma {:induction false} LastIsShown(w: World, last: Option<nat>, newest: Option<nat>, events: seq<Event>,
                                       answers: nat -> MeReply)
    requires Possible(w, events) && AnsweredBy(events, answers) && (last.Some? <==> newest.Some?)
    requires last.Some? ==> SessionOf(w.client) == SessionFrom(answers(last.value))
    requires last.None? ==> w.client.version.None?
    ensures LastAnswered(last, events).Some? <==> NewestAnswered(newest, events).Some?
    ensures LastAnswered(last, events).Some? ==>
              SessionOf(Run(w, events).client) == SessionFrom(answers(LastAnswered(last, events).value))
    decreases |events|
  {
    if events != [] {
      var event := events[0];
      assert event in events;
      var last' := match event
        case RefreshReturns(call, _) => Some(call)
        case SignOutReturns => None
        case _ => last;
      var newest' := match event
        case RefreshReturns(call, _) => if newest.Some? && newest.value > call then newest else Some(call)
        case SignOutReturns => None
        case _ => newest;
      LastIsShown(Step(w, event), last', newest', events[1..], answers);
    }
  }

  /** In every run the session shown is that of the newest call answered if and only if the
      call answered last is the newest, or both say the same: no reply knows its place. */
  lemma NewestIsShownExactly(events: seq<Event>, answers: nat -> MeReply)
    requires Possible(START, events) && AnsweredBy(events, answers) && NewestAnswered(None, events).Some?
    ensures LastAnswered(None, events).Some?
    ensures var last, newest := LastAnswered(None, events).value, NewestAnswered(None, events).value;
            SessionOf(Run(START, events).client) == SessionFrom(answers(newest)) <==>
            last == newest || SessionFrom(answers(last)) == SessionFrom(answers(newest))
  {
    LastIsShown(START, None, None, events, answers);
  }

  /** An older answer that comes late takes the version back, and the next switch is refused
      as stale although nothing else has happened since the newer one. */
  lemma OvertakenReplyMakesStale()
    ensures var events := [SignIn(0), Refresh, OtherCommand(0), RefreshReturns(1, MeOk(Me(None), 2)),
                           RefreshReturns(0, MeOk(Me(None), 1))];
            Possible(START, events) && Run(START, events).client.version == Some(1) &&
            ReplyTo(Run(START, events).server, Sent(Run(START, events), "x"), true) == StaleVersion
  {
    var e0, e1, e2 := SignIn(0), Refresh, OtherCommand(0);
    var e3, e4 := RefreshReturns(1, MeOk(Me(None), 2)), RefreshReturns(0, MeOk(Me(None), 1));
    var w1 := Step(START, e0);
    var w2 := Step(w1, e1);
    var w3 := Step(w2, e2);
    var w4 := Step(w3, e3);
    RunOfFive(START, e0, w1, e1, w2, e2, w3, e3, w4, e4);
  }

  // ----- The error that is shown -----

  /** The failure that came back last, of a `refreshMe` or a switch, unless the user has been
      found or has signed out since. */
  function LastFailure(failure: Option<ApiError>, events: seq<Event>): Option<ApiError>
    decreases |events|
  {
    if events == [] then failure
    else
      match events[0]
      case RefreshReturns(_, MeFailed(error)) => LastFailure(Some(error), events[1..])
      case RefreshReturns(_, MeOk(_, _)) => LastFailure(None, events[1..])
      case Return(_, Some(error)) => LastFailure(Some(error), events[1..])
      case SignOutReturns => LastFailure(None, events[1..])
      case _ => LastFailure(failure, events[1..])
  }

  lemma {:induction false} ErrorFollows(w: World, events: seq<Event>)
    requires Possible(w, events)
    ensures Run(w, events).client.error == LastFailure(w.client.error, events)
    decreases |events|
  {
    if events != [] {
      ErrorFollows(Step(w, events[0]), events[1..]);
    }
  }

  /** In every run the session error is that failure, and nothing else clears it: not even
      the success of a switch, before the user has been found again. */
  lemma ErrorIsLastFailure(events: seq<Event>)
    requires Possible(START, events)
    ensures Run(START, events).client.error == LastFailure(None, events)
  {
    ErrorFollows(START, events);
  }

  /** Whether a session is shown: after `refreshMe` has found the user, until it fails or the
      user signs out; and a failure for want of access is no error state. */
  lemma {:induction false} StatusFollows(w: World, events: seq<Event>)
    requires Possible(w, events)
    ensures Run(w, events).client.status == LastStatus(w.client.status, events)
    decreases |events|
  {
    if events != [] {
      StatusFollows(Step(w, events[0]), events[1..]);
    }
  }

  function LastStatus(status: Status, events: seq<Event>): Status
    decreases |events|
  {
    if events == [] then status
    else
      match events[0]
      case RefreshReturns(_, MeOk(_, _)) => LastStatus(Authenticated, events[1..])
      case RefreshReturns(_, MeFailed(NoAccess)) => LastStatus(Anonymous, events[1..])
      case RefreshReturns(_, MeFailed(_)) => LastStatus(Failed, events[1..])
      case SignOutReturns => LastStatus(Anonymous, events[1..])
      case _ => LastStatus(status, events[1..])
  }

  // ----- Which keys are kept -----

  /** In every run, exactly which keys a step changes: a command that is sent keeps its key,
      an old or a new one; a success drops that of its command; and nothing else, a failure
      or signing out for instance, touches any. */
  lemma KeysExactly(events: seq<Event>, event: Event)
    requires Possible(START, events) && Enabled(Run(START, events), event)
    ensures var w := Run(START, events);
            var before, after := w.client.keys, Step(w, event).client.keys;
            match event
            case OidcStart =>
              after.Keys == before.Keys + {"oidc-start"} && forall c :: c in before ==> after[c] == before[c]
            case Switch(workspace) =>
              after.Keys == before.Keys + {Command(w.client.version.value, workspace)} &&
              forall c :: c in before ==> after[c] == before[c]
            case Return(i, None) => after == before - {Command(w.requests[i].version, w.requests[i].workspace)}
            case _ => after == before
  {
  }

  // ----- What the server carries out -----

  /** A switch has an effect exactly when the session is there and not revoked, the token is
      its current one, the workspace is within reach, the version is the session's, and the
      key has not been used in the session; it then raises the version by one. */
  lemma ServedExactly(server: Server, r: Request, reachable: bool)
    ensures var c := r.credential;
            if c.session in server.versions && c.session in server.tokens && c.session !in server.revoked &&
               c.token == server.tokens[c.session] && reachable && r.version == server.versions[c.session] &&
               (c.session, r.key) !in server.done
            then
              Served(server, r, reachable).effects ==
                server.effects + [Effect(c.session, r.version, r.workspace, r.key)] &&
              Served(server, r, reachable).versions == server.versions[c.session := server.versions[c.session] + 1]
            else Served(server, r, reachable) == server
  {
  }
}
