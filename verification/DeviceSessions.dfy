/** Device-bound sessions (apps/api/src/v2/auth/v2-auth.service.ts, apps/api/src/v2/sessions/sessions.repository.ts). */
module DeviceSessions {
  import opened Wrappers

  type UserId = string
  type DeviceId = string
  type SessionId = nat

  datatype TokenUse = Access | Refresh

  /** The signed claims; signing is deterministic, so equal claims are the same string. `iat` is in whole seconds. */
  datatype Token = Token(tokenUse: TokenUse, sub: UserId, tenant: string, deviceId: DeviceId, sessionId: SessionId,
                         name: string, iat: nat)

  /** SHA-256 is taken as injective and never equal to the placeholder. */
  datatype Hash = Placeholder | HashOf(token: Token)

  datatype Session = Session(deviceId: DeviceId, userId: UserId, hash: Hash, isActive: bool)

  datatype User = User(tenant: string, name: string)

  datatype Device = Device(isActive: bool, boundTo: Option<UserId>)

  datatype Error = DeviceNotRegistered | InvalidCredentials | InvalidToken | SessionRevoked

  datatype Envelope = Envelope(access: Token, refresh: Token)

  datatype Store = Store(sessions: map<SessionId, Session>, devices: map<DeviceId, Device>, nextId: SessionId)

  type Users = map<UserId, User>

  function Issue(tokenUse: TokenUse, users: Users, user: UserId, device: DeviceId, session: SessionId, now: nat): Token
    requires user in users
  {
    Token(tokenUse, user, users[user].tenant, device, session, users[user].name, now)
  }

  function IssueBoth(users: Users, user: UserId, device: DeviceId, session: SessionId, now: nat): Envelope
    requires user in users
  {
    Envelope(Issue(Access, users, user, device, session, now), Issue(Refresh, users, user, device, session, now))
  }

  // ---- What each service call does --------------------------------------------------

  function RevokedOn(sessions: map<SessionId, Session>, device: DeviceId): map<SessionId, Session> {
    map id | id in sessions ::
      if sessions[id].deviceId == device then sessions[id].(isActive := false) else sessions[id]
  }

  predicate CanLogin(s: Store, users: Users, device: DeviceId, user: UserId) {
    device in s.devices && s.devices[device].isActive && user in users
  }

  function LoggedIn(s: Store, users: Users, device: DeviceId, user: UserId, now: nat): Store
    requires CanLogin(s, users, device, user)
  {
    var row := Session(device, user, HashOf(IssueBoth(users, user, device, s.nextId, now).refresh), true);
    Store(RevokedOn(s.sessions, device)[s.nextId := row],
          s.devices[device := s.devices[device].(boundTo := Some(user))],
          s.nextId + 1)
  }

  predicate IsActive(s: Store, id: SessionId) {
    id in s.sessions && s.sessions[id].isActive
  }

  /** A refresh request that reaches the stored session: a verified refresh token, sent from its own device. */
  predicate Reaches(s: Store, device: DeviceId, t: Option<Token>) {
    t.Some? && t.value.tokenUse == Refresh && t.value.deviceId == device && IsActive(s, t.value.sessionId)
  }

  predicate Matches(s: Store, t: Token) {
    IsActive(s, t.sessionId) && s.sessions[t.sessionId].hash == HashOf(t)
  }

  /** The rows after a refresh request: a new hash for the matching token, a revoked session for any other. */
  function Refreshed(s: Store, users: Users, device: DeviceId, t: Option<Token>, now: nat): Store {
    if !Reaches(s, device, t) then s
    else
      var id := t.value.sessionId;
      var row := s.sessions[id];
      if !Matches(s, t.value) then s.(sessions := s.sessions[id := row.(isActive := false)])
      else if t.value.sub !in users then s
      else s.(sessions := s.sessions[id := row.(hash :=
                HashOf(Issue(Refresh, users, t.value.sub, row.deviceId, id, now)))])
  }

  /** A token verifies until its lifetime is over. */
  predicate Unexpired(t: Token, life: nat, at: nat) {
    at < t.iat + life
  }

  predicate Accepts(s: Store, users: Users, life: nat, t: Token, at: nat) {
    && t.tokenUse == Access
    && Unexpired(t, life, at)
    && IsActive(s, t.sessionId)
    && s.sessions[t.sessionId].deviceId == t.deviceId
    && s.sessions[t.sessionId].userId == t.sub
    && t.sub in users
  }

  // ---- The service and its repository, in place ----------------------------------------

  class SessionStore {
    const users: Users
    const accessLife: nat
    var sessions: map<SessionId, Session>
    var devices: map<DeviceId, Device>
    var nextId: SessionId

    ghost function State(): Store
      reads this
    {
      Store(sessions, devices, nextId)
    }

    constructor (users: Users, accessLife: nat, devices: map<DeviceId, Device>)
      ensures State() == Store(map[], devices, 0) && this.users == users && this.accessLife == accessLife
    {
      this.users, this.accessLife, this.devices, sessions, nextId := users, accessLife, devices, map[], 0;
    }

    method FindActiveById(id: SessionId) returns (row: Option<Session>)
      ensures row == if IsActive(State(), id) then Some(sessions[id]) else None
    {
      row := if id in sessions && sessions[id].isActive then Some(sessions[id]) else None;
    }

    method RevokeAllForDevice(device: DeviceId)
      modifies this`sessions
      ensures sessions == RevokedOn(old(sessions), device)
      ensures State() == CallStep(old(State()), RevokeAll(device))
    {
      sessions := map id | id in sessions ::
        if sessions[id].deviceId == device && sessions[id].isActive
        then sessions[id].(isActive := false) else sessions[id];
    }

    method Create(device: DeviceId, user: UserId, hash: Hash) returns (id: SessionId)
      modifies this`sessions, this`nextId
      ensures id == old(nextId) && nextId == id + 1
      ensures sessions == old(sessions)[id := Session(device, user, hash, true)]
      ensures State() == CallStep(old(State()), Insert(device, user, hash))
    {
      id := nextId;
      sessions := sessions[id := Session(device, user, hash, true)];
      nextId := nextId + 1;
    }

    method UpdateRefreshToken(id: SessionId, hash: Hash)
      modifies this`sessions
      ensures sessions == if id in old(sessions) then old(sessions)[id := old(sessions)[id].(hash := hash)]
                          else old(sessions)
      ensures State() == CallStep(old(State()), SetHash(id, hash))
    {
      if id in sessions { sessions := sessions[id := sessions[id].(hash := hash)]; }
    }

    method Revoke(id: SessionId)
      modifies this`sessions
      ensures sessions == if id in old(sessions) then old(sessions)[id := old(sessions)[id].(isActive := false)]
                          else old(sessions)
      ensures State() == CallStep(old(State()), RevokeOne(id))
    {
      if id in sessions { sessions := sessions[id := sessions[id].(isActive := false)]; }
    }

    /** Both sign-in routes end here, once the credentials are verified. */
    method Login(device: DeviceId, user: UserId, now: nat) returns (r: Result<Envelope, Error>)
      modifies this
      ensures r.Success? <==> CanLogin(old(State()), users, device, user)
      ensures r == Failure(DeviceNotRegistered) <==> device !in old(devices) || !old(devices)[device].isActive
      ensures r.Failure? ==> r.error == DeviceNotRegistered || (r.error == InvalidCredentials && user !in users)
      ensures r.Failure? ==> State() == old(State())
      ensures r.Success? ==> State() == LoggedIn(old(State()), users, device, user, now)
                             && r.value == IssueBoth(users, user, device, old(nextId), now)
    {
      if device !in devices || !devices[device].isActive { return Failure(DeviceNotRegistered); }
      if user !in users { return Failure(InvalidCredentials); }
      RevokeAllForDevice(device);
      var id := Create(device, user, Placeholder);
      var access := Issue(Access, users, user, device, id, now);
      var refresh := Issue(Refresh, users, user, device, id, now);
      UpdateRefreshToken(id, HashOf(refresh));
      devices := devices[device := devices[device].(boundTo := Some(user))];
      r := Success(Envelope(access, refresh));
    }

    /** `presented` is absent when the token does not verify: a wrong signature or an expired token. */
    method RefreshSession(device: DeviceId, presented: Option<Token>, now: nat) returns (r: Result<Envelope, Error>)
      modifies this
      ensures State() == Refreshed(old(State()), users, device, presented, now)
      ensures r.Success? <==> Reaches(old(State()), device, presented) && Matches(old(State()), presented.value)
                              && presented.value.sub in users
      ensures r == Failure(SessionRevoked) <==>
                && presented.Some? && presented.value.tokenUse == Refresh && presented.value.deviceId == device
                && !Matches(old(State()), presented.value)
      ensures r.Failure? ==> r.error == SessionRevoked || r.error == InvalidToken
      ensures r.Success? ==>
                var row := old(sessions)[presented.value.sessionId];
                r.value == IssueBoth(users, presented.value.sub, row.deviceId, presented.value.sessionId, now)
    {
      if presented.None? || presented.value.tokenUse != Refresh { return Failure(InvalidToken); }
      var decoded := presented.value;
      if decoded.deviceId != device { return Failure(InvalidToken); }
      var session := FindActiveById(decoded.sessionId);
      if session.None? { return Failure(SessionRevoked); }
      if session.value.hash != HashOf(decoded) {
        Revoke(decoded.sessionId);
        return Failure(SessionRevoked);
      }
      if decoded.sub !in users { return Failure(InvalidToken); }
      var access := Issue(Access, users, decoded.sub, session.value.deviceId, decoded.sessionId, now);
      var refresh := Issue(Refresh, users, decoded.sub, session.value.deviceId, decoded.sessionId, now);
      UpdateRefreshToken(decoded.sessionId, HashOf(refresh));
      r := Success(Envelope(access, refresh));
    }

    method LogoutDevice(device: DeviceId)
      modifies this`sessions
      ensures State() == old(State()).(sessions := RevokedOn(old(sessions), device))
    {
      RevokeAllForDevice(device);
    }

    method FromAccessToken(t: Token, at: nat) returns (r: Result<UserId, Error>)
      ensures r.Success? <==> Accepts(State(), users, accessLife, t, at)
      ensures r.Success? <==> && t.tokenUse == Access && at < t.iat + accessLife && t.sub in users
                              && t.sessionId in sessions && sessions[t.sessionId].isActive
                              && sessions[t.sessionId].deviceId == t.deviceId && sessions[t.sessionId].userId == t.sub
      ensures r.Success? ==> r.value == t.sub
      ensures r == Failure(SessionRevoked) <==>
                && t.tokenUse == Access && at < t.iat + accessLife
                && !(IsActive(State(), t.sessionId) && sessions[t.sessionId].deviceId == t.deviceId
                     && sessions[t.sessionId].userId == t.sub)
      ensures r.Failure? ==> r.error == SessionRevoked || r.error == InvalidToken
    {
      if at >= t.iat + accessLife { return Failure(InvalidToken); }
      if t.tokenUse != Access { return Failure(InvalidToken); }
      var session := FindActiveById(t.sessionId);
      if session.None? { return Failure(SessionRevoked); }
      if session.value.deviceId != t.deviceId || session.value.userId != t.sub { return Failure(SessionRevoked); }
      if t.sub !in users { return Failure(InvalidToken); }
      r := Success(t.sub);
    }
  }

  // ---- Runs -----------------------------------------------------------------------------

  datatype Op =
    | Login(device: DeviceId, user: UserId, now: nat)
    | RefreshOp(device: DeviceId, presented: Option<Token>, now: nat)
    | Logout(device: DeviceId)

  function Step(s: Store, users: Users, op: Op): Store {
    match op
    case Login(d, u, now) => if CanLogin(s, users, d, u) then LoggedIn(s, users, d, u, now) else s
    case RefreshOp(d, t, now) => Refreshed(s, users, d, t, now)
    case Logout(d) => s.(sessions := RevokedOn(s.sessions, d))
  }

  function Run(s: Store, users: Users, ops: seq<Op>): Store
    decreases |ops|
  {
    if ops == [] then s else Run(Step(s, users, ops[0]), users, ops[1..])
  }

  // ---- What each request answers and writes ------------------------------------------------

  /** A login's two tokens: the account's own tenant and name, the device, and the session created for it. */
  lemma LoginTokens(users: Users, user: UserId, device: DeviceId, session: SessionId, now: nat)
    requires user in users
    ensures IssueBoth(users, user, device, session, now)
            == Envelope(Token(Access, user, users[user].tenant, device, session, users[user].name, now),
                        Token(Refresh, user, users[user].tenant, device, session, users[user].name, now))
  {}

  /** A login on a registered, active device by a known account ends the sessions of that device, adds one that is
      active and honours the refresh token, and binds the device; any other login changes nothing. */
  lemma LoginEffect(s: Store, users: Users, device: DeviceId, user: UserId, now: nat)
    requires IdsBelow(s)
    ensures var t := Step(s, users, Login(device, user, now));
            if device !in s.devices || !s.devices[device].isActive || user !in users then t == s
            else
              var refresh := Token(Refresh, user, users[user].tenant, device, s.nextId, users[user].name, now);
              && t.nextId == s.nextId + 1
              && t.sessions.Keys == s.sessions.Keys + {s.nextId}
              && t.sessions[s.nextId] == Session(device, user, HashOf(refresh), true)
              && (forall id :: id in s.sessions ==>
                    t.sessions[id] == Session(s.sessions[id].deviceId, s.sessions[id].userId, s.sessions[id].hash,
                                              s.sessions[id].isActive && s.sessions[id].deviceId != device))
              && t.devices.Keys == s.devices.Keys && t.devices[device] == Device(true, Some(user))
              && (forall d :: d in s.devices && d != device ==> t.devices[d] == s.devices[d])
  {}

  /** A refresh changes at most the one session its token names, and only when the token is a refresh token of an active
      session sent from its own device: any other token than the stored one deactivates it, the stored one of a known
      account is replaced by the next. */
  lemma RefreshEffect(s: Store, users: Users, device: DeviceId, presented: Option<Token>, now: nat)
    ensures var t := Step(s, users, RefreshOp(device, presented, now));
            && t.devices == s.devices && t.nextId == s.nextId && t.sessions.Keys == s.sessions.Keys
            && (forall id :: id in s.sessions && (presented.None? || id != presented.value.sessionId) ==>
                  t.sessions[id] == s.sessions[id])
            && (presented.Some? && presented.value.sessionId in s.sessions ==>
                  var p, id := presented.value, presented.value.sessionId;
                  var row := s.sessions[id];
                  if p.tokenUse == Access || p.deviceId != device || !row.isActive then t.sessions[id] == row
                  else if row.hash != HashOf(p)
                  then t.sessions[id] == Session(row.deviceId, row.userId, row.hash, false)
                  else if p.sub !in users then t.sessions[id] == row
                  else t.sessions[id] == Session(row.deviceId, row.userId,
                                                 HashOf(Token(Refresh, p.sub, users[p.sub].tenant, row.deviceId, id,
                                                              users[p.sub].name, now)), true))
  {}

  /** A logout deactivates the sessions of the device and nothing else. */
  lemma LogoutEffect(s: Store, users: Users, device: DeviceId)
    ensures var t := Step(s, users, Logout(device));
            && t.devices == s.devices && t.nextId == s.nextId && t.sessions.Keys == s.sessions.Keys
            && (forall id :: id in s.sessions ==>
                  t.sessions[id] == Session(s.sessions[id].deviceId, s.sessions[id].userId, s.sessions[id].hash,
                                            s.sessions[id].isActive && s.sessions[id].deviceId != device))
  {}

  ghost predicate IdsBelow(s: Store) {
    forall id :: id in s.sessions ==> id < s.nextId
  }

  ghost predicate OneActivePerDevice(s: Store) {
    && IdsBelow(s)
    && (forall i, j :: IsActive(s, i) && IsActive(s, j) && s.sessions[i].deviceId == s.sessions[j].deviceId ==> i == j)
  }

  /** With each login taken as one step, a device never has two active sessions. */
  lemma {:induction false} AtMostOneActiveSession(s: Store, users: Users, ops: seq<Op>)
    requires OneActivePerDevice(s)
    ensures OneActivePerDevice(Run(s, users, ops))
    decreases |ops|
  {
    if ops == [] {
    } else {
      StepKeepsOneActive(s, users, ops[0]);
      AtMostOneActiveSession(Step(s, users, ops[0]), users, ops[1..]);
    }
  }

  lemma StepKeepsOneActive(s: Store, users: Users, op: Op)
    requires OneActivePerDevice(s)
    ensures OneActivePerDevice(Step(s, users, op))
  {
    var after := Step(s, users, op);
    forall i, j | IsActive(after, i) && IsActive(after, j) && after.sessions[i].deviceId == after.sessions[j].deviceId
      ensures i == j
    {
      assert i == s.nextId || IsActive(s, i);
      assert j == s.nextId || IsActive(s, j);
    }
  }

  // ---- One session followed through a run -------------------------------------------------

  /** What one request makes of a session's live refresh token; None kills the session. */
  function FollowStep(users: Users, live: Token, op: Op): Option<Token> {
    match op
    case Login(d, u, _) => if d == live.deviceId && u in users then None else Some(live)
    case Logout(d) => if d == live.deviceId then None else Some(live)
    case RefreshOp(d, t, now) =>
      if t.None? || t.value.tokenUse != Refresh || t.value.deviceId != d || t.value.sessionId != live.sessionId
      then Some(live)
      else if t.value == live then Some(live.(iat := now))
      else None
  }

  /** The refresh token a session honours after a run, computed from the requests alone; None once it is dead. */
  function Follow(users: Users, live: Token, ops: seq<Op>): Option<Token>
    decreases |ops|
  {
    if ops == [] then Some(live)
    else match FollowStep(users, live, ops[0])
      case Some(t) => Follow(users, t, ops[1..])
      case None => None
  }

  /** The session is active and its hash is that of `live`, whose claims name it. */
  ghost predicate Honours(s: Store, users: Users, live: Token) {
    && live.tokenUse == Refresh && live.sub in users
    && live.tenant == users[live.sub].tenant && live.name == users[live.sub].name
    && Matches(s, live) && live.sessionId < s.nextId
    && s.sessions[live.sessionId].deviceId == live.deviceId && s.sessions[live.sessionId].userId == live.sub
    && live.deviceId in s.devices && s.devices[live.deviceId].isActive
  }

  ghost predicate Dead(s: Store, id: SessionId) {
    id in s.sessions && !s.sessions[id].isActive && id < s.nextId
  }

  /** A session's fate depends on nothing but the requests: the stored rows and `Follow` agree after every run. */
  lemma {:induction false} SessionFollows(s: Store, users: Users, live: Token, ops: seq<Op>)
    requires Honours(s, users, live)
    ensures var end := Run(s, users, ops);
            match Follow(users, live, ops)
            case Some(t) => Honours(end, users, t) && t == live.(iat := t.iat)
            case None => Dead(end, live.sessionId)
    decreases |ops|
  {
    if ops == [] {
    } else {
      var next := Step(s, users, ops[0]);
      StepFollows(s, users, live, ops[0]);
      match FollowStep(users, live, ops[0])
      case Some(t) =>
        SessionFollows(next, users, t, ops[1..]);
      case None =>
        DeadStaysDead(next, users, ops[1..], live.sessionId);
    }
  }

  lemma StepFollows(s: Store, users: Users, live: Token, op: Op)
    requires Honours(s, users, live)
    ensures match FollowStep(users, live, op)
            case Some(t) => Honours(Step(s, users, op), users, t) && t == live.(iat := t.iat)
            case None => Dead(Step(s, users, op), live.sessionId)
  {}

  lemma {:induction false} DeadStaysDead(s: Store, users: Users, ops: seq<Op>, id: SessionId)
    requires Dead(s, id)
    ensures Dead(Run(s, users, ops), id)
    decreases |ops|
  {
    if ops == [] {
    } else {
      DeadStaysDead(Step(s, users, ops[0]), users, ops[1..], id);
    }
  }

  lemma LoginIsHonoured(s: Store, users: Users, device: DeviceId, user: UserId, now: nat)
    requires IdsBelow(s) && CanLogin(s, users, device, user)
    ensures Honours(LoggedIn(s, users, device, user, now), users, IssueBoth(users, user, device, s.nextId, now).refresh)
  {}

  /** The access token of a login is accepted after any later run exactly while it has not expired and its session
      lives: until the next login or logout on the device, or a refresh with anything but the live refresh token. */
  lemma AccessTokenLifetime(s: Store, users: Users, life: nat, device: DeviceId, user: UserId, now: nat, ops: seq<Op>,
                            at: nat)
    requires IdsBelow(s) && CanLogin(s, users, device, user)
    ensures var issued := IssueBoth(users, user, device, s.nextId, now);
            Accepts(Run(LoggedIn(s, users, device, user, now), users, ops), users, life, issued.access, at)
            <==> at < now + life && Follow(users, issued.refresh, ops).Some?
  {
    LoginIsHonoured(s, users, device, user, now);
    SessionFollows(LoggedIn(s, users, device, user, now), users,
                   IssueBoth(users, user, device, s.nextId, now).refresh, ops);
  }

  lemma {:induction false} FollowEnds(users: Users, live: Token, ops: seq<Op>, k: nat)
    requires k < |ops|
    requires || ops[k] == Logout(live.deviceId)
             || (ops[k].Login? && ops[k].device == live.deviceId && ops[k].user in users)
    ensures Follow(users, live, ops).None?
    decreases |ops|
  {
    if k == 0 {
    } else {
      var next := FollowStep(users, live, ops[0]);
      if next.Some? {
        FollowEnds(users, next.value, ops[1..], k - 1);
      }
    }
  }

  /** After any login or logout on the device no earlier access token of it is accepted again. */
  lemma AccessEndsAtNextLoginOrLogout(s: Store, users: Users, life: nat, device: DeviceId, user: UserId, now: nat,
                                      ops: seq<Op>, k: nat, at: nat)
    requires IdsBelow(s) && CanLogin(s, users, device, user)
    requires k < |ops|
    requires ops[k] == Logout(device) || (ops[k].Login? && ops[k].device == device && ops[k].user in users)
    ensures !Accepts(Run(LoggedIn(s, users, device, user, now), users, ops), users, life,
                     IssueBoth(users, user, device, s.nextId, now).access, at)
  {
    AccessTokenLifetime(s, users, life, device, user, now, ops, at);
    FollowEnds(users, IssueBoth(users, user, device, s.nextId, now).refresh, ops, k);
  }

  // ---- Rotation and replay ----------------------------------------------------------------

  /** After any run, the one refresh token a live session honours is the last issued for it. Any other verified
      token of the session, sent from the device it names, deactivates the session for good. */
  lemma OnlyTheLastTokenIsHonoured(s: Store, users: Users, live: Token, ops: seq<Op>, presented: Token, now: nat,
                                   later: seq<Op>)
    requires Honours(s, users, live) && Follow(users, live, ops).Some?
    requires presented.tokenUse == Refresh && presented.sessionId == live.sessionId
    ensures var end := Run(s, users, ops);
            var next := Refreshed(end, users, presented.deviceId, Some(presented), now);
            if presented == Follow(users, live, ops).value
            then Honours(next, users, presented.(iat := now))
            else Dead(Run(next, users, later), live.sessionId)
  {
    SessionFollows(s, users, live, ops);
    var end := Run(s, users, ops);
    var next := Refreshed(end, users, presented.deviceId, Some(presented), now);
    if presented != Follow(users, live, ops).value {
      DeadStaysDead(next, users, later, live.sessionId);
    }
  }

  /** A used token presented again kills the session exactly when the clock second has moved on since it was
      issued: in the same second the rotated token is the same string, and the replay is honoured. */
  lemma ReplayIsCaughtIffSecondMoved(s: Store, users: Users, used: Token, now: nat, later: nat)
    requires Honours(s, users, used)
    ensures var rotated := Refreshed(s, users, used.deviceId, Some(used), now);
            var replayed := Refreshed(rotated, users, used.deviceId, Some(used), later);
            && Honours(rotated, users, used.(iat := now))
            && (Dead(replayed, used.sessionId) <==> now != used.iat)
            && (now == used.iat ==> Honours(replayed, users, used.(iat := later)))
  {}

  // ---- Repository calls in any order ----------------------------------------------------------

  datatype Call =
    | RevokeAll(device: DeviceId)
    | Insert(device: DeviceId, user: UserId, hash: Hash)
    | SetHash(id: SessionId, hash: Hash)
    | RevokeOne(id: SessionId)

  function CallStep(s: Store, c: Call): Store {
    match c
    case RevokeAll(d) => s.(sessions := RevokedOn(s.sessions, d))
    case Insert(d, u, h) => s.(sessions := s.sessions[s.nextId := Session(d, u, h, true)], nextId := s.nextId + 1)
    case SetHash(id, h) =>
      if id in s.sessions then s.(sessions := s.sessions[id := s.sessions[id].(hash := h)]) else s
    case RevokeOne(id) =>
      if id in s.sessions then s.(sessions := s.sessions[id := s.sessions[id].(isActive := false)]) else s
  }

  function Calls(s: Store, cs: seq<Call>): Store
    decreases |cs|
  {
    if cs == [] then s else Calls(CallStep(s, cs[0]), cs[1..])
  }

  /** However the calls of different requests interleave, a revoked session never becomes active again. */
  lemma {:induction false} RevokedNeverReturns(s: Store, cs: seq<Call>, id: SessionId)
    requires Dead(s, id)
    ensures Dead(Calls(s, cs), id)
    decreases |cs|
  {
    if cs == [] {
    } else {
      RevokedNeverReturns(CallStep(s, cs[0]), cs[1..], id);
    }
  }

  function ActiveIds(s: Store, device: DeviceId): set<SessionId> {
    set id | id in s.sessions && s.sessions[id].isActive && s.sessions[id].deviceId == device
  }

  /** The sessions of one device that a list of calls leaves active, read off the calls alone. */
  function Live(cs: seq<Call>, device: DeviceId, live: set<SessionId>, next: SessionId): set<SessionId>
    decreases |cs|
  {
    if cs == [] then live
    else match cs[0]
      case RevokeAll(d) => Live(cs[1..], device, if d == device then {} else live, next)
      case Insert(d, _, _) => Live(cs[1..], device, if d == device then live + {next} else live, next + 1)
      case SetHash(_, _) => Live(cs[1..], device, live, next)
      case RevokeOne(id) => Live(cs[1..], device, live - {id}, next)
  }

  lemma CallKeepsIdsBelow(s: Store, c: Call)
    requires IdsBelow(s)
    ensures IdsBelow(CallStep(s, c))
  {}

  /** Whatever requests the calls come from and however they interleave. */
  lemma {:induction false} CallsLeaveLive(s: Store, cs: seq<Call>, device: DeviceId)
    requires IdsBelow(s)
    ensures IdsBelow(Calls(s, cs))
    ensures ActiveIds(Calls(s, cs), device) == Live(cs, device, ActiveIds(s, device), s.nextId)
    decreases |cs|
  {
    if cs == [] {
    } else {
      var next, live := CallStep(s, cs[0]), ActiveIds(s, device);
      CallKeepsIdsBelow(s, cs[0]);
      CallsLeaveLive(next, cs[1..], device);
      match cs[0]
      case RevokeAll(d) => assert ActiveIds(next, device) == if d == device then {} else live;
      case Insert(d, _, _) => assert ActiveIds(next, device) == if d == device then live + {s.nextId} else live;
      case SetHash(_, _) => assert ActiveIds(next, device) == live;
      case RevokeOne(id) => assert ActiveIds(next, device) == live - {id};
    }
  }

  lemma AtMostOneMember(ids: set<SessionId>)
    ensures |ids| <= 1 <==> forall i, j :: i in ids && j in ids ==> i == j
  {
    if i, j :| i in ids && j in ids && i != j {
      assert |ids| == |ids - {i} - {j}| + 2;
    } else if ids != {} {
      var i :| i in ids;
      assert ids == {i};
    }
  }

  /** From any store and for any list of calls: no device is left with two active sessions if and only if the calls
      leave at most one live on each. */
  lemma OneActiveIff(s: Store, cs: seq<Call>)
    requires IdsBelow(s)
    ensures OneActivePerDevice(Calls(s, cs))
            <==> forall device :: |Live(cs, device, ActiveIds(s, device), s.nextId)| <= 1
  {
    var end := Calls(s, cs);
    forall device
      ensures IdsBelow(end)
      ensures |Live(cs, device, ActiveIds(s, device), s.nextId)| <= 1
              <==> forall i, j :: i in ActiveIds(end, device) && j in ActiveIds(end, device) ==> i == j
    {
      CallsLeaveLive(s, cs, device);
      AtMostOneMember(ActiveIds(end, device));
    }
    CallsLeaveLive(s, cs, "");
    if forall device :: |Live(cs, device, ActiveIds(s, device), s.nextId)| <= 1 {
      forall i, j | IsActive(end, i) && IsActive(end, j) && end.sessions[i].deviceId == end.sessions[j].deviceId
        ensures i == j
      {
        var device := end.sessions[i].deviceId;
        assert |Live(cs, device, ActiveIds(s, device), s.nextId)| <= 1;
        assert i in ActiveIds(end, device) && j in ActiveIds(end, device);
      }
    } else {
      var device :| |Live(cs, device, ActiveIds(s, device), s.nextId)| > 1;
      var i, j :| i in ActiveIds(end, device) && j in ActiveIds(end, device) && i != j;
      assert IsActive(end, i) && IsActive(end, j);
    }
  }

  /** How many inserts have piled up on a device since it was last revoked. */
  function Pile(cs: seq<Call>, device: DeviceId, n: nat): nat
    decreases |cs|
  {
    if cs == [] then n
    else match cs[0]
      case RevokeAll(d) => Pile(cs[1..], device, if d == device then 0 else n)
      case Insert(d, _, _) => Pile(cs[1..], device, if d == device then n + 1 else n)
      case _ => Pile(cs[1..], device, n)
  }

  /** Logins, logouts and rotations, which revoke no single session, leave as many sessions as have piled up. */
  lemma {:induction false} LiveIsThePile(cs: seq<Call>, device: DeviceId, live: set<SessionId>, next: SessionId)
    requires forall id :: id in live ==> id < next
    requires forall c :: c in cs ==> !c.RevokeOne?
    ensures |Live(cs, device, live, next)| == Pile(cs, device, |live|)
    decreases |cs|
  {
    if cs == [] {
    } else {
      assert !cs[0].RevokeOne? by { assert cs[0] in cs; }
      match cs[0]
      case RevokeAll(d) => LiveIsThePile(cs[1..], device, if d == device then {} else live, next);
      case Insert(d, _, _) => LiveIsThePile(cs[1..], device, if d == device then live + {next} else live, next + 1);
      case SetHash(_, _) => LiveIsThePile(cs[1..], device, live, next);
    }
  }

  /** Without single revocations that is: at most one insert since the last revocation, on every device. */
  lemma OneActiveIffNoPile(s: Store, cs: seq<Call>)
    requires IdsBelow(s)
    requires forall c :: c in cs ==> !c.RevokeOne?
    ensures OneActivePerDevice(Calls(s, cs)) <==> forall device :: Pile(cs, device, |ActiveIds(s, device)|) <= 1
  {
    OneActiveIff(s, cs);
    forall device
      ensures |Live(cs, device, ActiveIds(s, device), s.nextId)| == Pile(cs, device, |ActiveIds(s, device)|)
    {
      LiveIsThePile(cs, device, ActiveIds(s, device), s.nextId);
    }
  }

  /** One active session per device needs the login to be one step: two logins that both revoke before either
      creates leave two. */
  lemma InterleavedLoginsLeaveTwo(device: DeviceId, first: UserId, second: UserId)
    ensures var cs := [RevokeAll(device), RevokeAll(device), Insert(device, first, Placeholder),
                       Insert(device, second, Placeholder)];
            !OneActivePerDevice(Calls(Store(map[], map[], 0), cs))
  {
    var s0 := Store(map[], map[], 0);
    var cs := [RevokeAll(device), RevokeAll(device), Insert(device, first, Placeholder),
               Insert(device, second, Placeholder)];
    var s1 := CallStep(s0, cs[0]);
    var s2 := CallStep(s1, cs[1]);
    var s3 := CallStep(s2, cs[2]);
    var s4 := CallStep(s3, cs[3]);
    assert Calls(s3, cs[3..]) == s4;
    assert Calls(s2, cs[2..]) == s4 by { assert cs[2..][1..] == cs[3..]; }
    assert Calls(s1, cs[1..]) == s4 by { assert cs[1..][1..] == cs[2..]; }
    assert IsActive(s4, 0) && IsActive(s4, 1);
  }

  /** The hash a list of calls leaves on a session: the last one set, or the one it had. */
  function LastHash(cs: seq<Call>, id: SessionId, hash: Hash): Hash
    decreases |cs|
  {
    if cs == [] then hash
    else LastHash(cs[1..], id, if cs[0].SetHash? && cs[0].id == id then cs[0].hash else hash)
  }

  /** A stored session keeps its device and user under any calls, and carries the last hash set for it. */
  lemma {:induction false} CallsLeaveLastHash(s: Store, cs: seq<Call>, id: SessionId)
    requires IdsBelow(s) && id in s.sessions
    ensures var end := Calls(s, cs);
            && id in end.sessions && id < end.nextId && end.devices == s.devices
            && end.sessions[id].deviceId == s.sessions[id].deviceId
            && end.sessions[id].userId == s.sessions[id].userId
            && end.sessions[id].hash == LastHash(cs, id, s.sessions[id].hash)
    decreases |cs|
  {
    if cs == [] {
    } else {
      CallKeepsIdsBelow(s, cs[0]);
      CallsLeaveLastHash(CallStep(s, cs[0]), cs[1..], id);
    }
  }

  /** However the calls of any requests interleave, a token of a session is the one it honours afterwards exactly when
      the calls leave the session live and set that token's hash last. */
  lemma HonouredIffLiveAndSetLast(s: Store, users: Users, live: Token, cs: seq<Call>, t: Token)
    requires IdsBelow(s) && Honours(s, users, live) && t == live.(iat := t.iat)
    ensures var id, device := live.sessionId, live.deviceId;
            Honours(Calls(s, cs), users, t)
            <==> id in Live(cs, device, ActiveIds(s, device), s.nextId) && LastHash(cs, id, HashOf(live)) == HashOf(t)
  {
    CallsLeaveLive(s, cs, live.deviceId);
    CallsLeaveLastHash(s, cs, live.sessionId);
    assert live.sessionId in ActiveIds(Calls(s, cs), live.deviceId) <==> IsActive(Calls(s, cs), live.sessionId);
  }

  /** Two refreshes that both read the row before either writes both answer with new tokens, and the one written
      first is already dead: presenting it kills the session. */
  lemma InterleavedRefreshesKeepTheLastWritten(s: Store, users: Users, live: Token, a: Token, b: Token, now: nat)
    requires IdsBelow(s) && Honours(s, users, live)
    requires a == live.(iat := a.iat) && b == live.(iat := b.iat) && a != b
    ensures var id := live.sessionId;
            var both := Calls(s, [SetHash(id, HashOf(a)), SetHash(id, HashOf(b))]);
            Honours(both, users, b) && Dead(Refreshed(both, users, live.deviceId, Some(a), now), id)
  {
    var cs := [SetHash(live.sessionId, HashOf(a)), SetHash(live.sessionId, HashOf(b))];
    var active := ActiveIds(s, live.deviceId);
    assert cs[1..] == [SetHash(live.sessionId, HashOf(b))] && cs[1..][1..] == [];
    assert LastHash(cs, live.sessionId, HashOf(live)) == LastHash(cs[1..], live.sessionId, HashOf(a)) == HashOf(b);
    assert Live(cs, live.deviceId, active, s.nextId) == Live(cs[1..], live.deviceId, active, s.nextId) == active;
    assert live.sessionId in active;
    HonouredIffLiveAndSetLast(s, users, live, cs, b);
  }
}
