/** Sessions as whole calls, one at a time: register, login, refresh, logout, device
revocation.  Each call is a method on the token and device tables, proved against
a function on their contents; the promises are invariants of every run of calls. */
module Sessions {
  import opened Options
  import Rotation

  /** 30 days, in seconds. */
  const REFRESH_TOKEN_TTL := 30 * 24 * 3600

  datatype Token = Token(user: nat, device: nat, family: nat, expiresAt: int, revoked: bool, replacedBy: Option<nat>)

  datatype Device = Device(owner: nat, revoked: bool)

  datatype Tables = Tables(users: set<nat>, devices: map<nat, Device>, tokens: map<nat, Token>,
                           nextDevice: nat, nextToken: nat, nextFamily: nat)

  const EMPTY := Tables({}, map[], map[], 0, 0, 0)

  datatype Outcome =
    | Issued(token: nat, device: nat)
    | InvalidRefreshToken
    | RefreshTokenReuse
    | Validation
    | EmailTaken
    | NoSuchUser
    | DeviceNotFound
    | Done

  datatype Call =
    | Register(user: nat, now: int)
    | Login(user: nat, wanted: Option<nat>, now: int)
    | Refresh(token: nat, inputIsValid: bool, now: int)
    | Logout(user: nat, token: nat)
    | RevokeDevice(user: nat, device: nat)

  // ---- Statements

  predicate LiveDevice(t: Tables, d: nat, u: nat) { d in t.devices && t.devices[d].owner == u && !t.devices[d].revoked }

  function RevokeByDevice(tokens: map<nat, Token>, d: nat, u: nat): map<nat, Token> {
    map i | i in tokens ::
        if tokens[i].device == d && tokens[i].user == u then tokens[i].(revoked := true) else tokens[i]
  }

  function RevokeFamily(tokens: map<nat, Token>, f: nat): map<nat, Token> {
    map i | i in tokens :: if tokens[i].family == f then tokens[i].(revoked := true) else tokens[i]
  }

  function RevokeFamilyForUser(tokens: map<nat, Token>, f: nat, u: nat): map<nat, Token> {
    map i | i in tokens ::
        if tokens[i].family == f && tokens[i].user == u then tokens[i].(revoked := true) else tokens[i]
  }

  // ---- What each call does

  function Issue(t: Tables, u: nat, d: nat, now: int): (Tables, Outcome) {
    var issued := Token(u, d, t.nextFamily, now + REFRESH_TOKEN_TTL, false, None);
    (t.(tokens := RevokeByDevice(t.tokens, d, u)[t.nextToken := issued],
        nextToken := t.nextToken + 1, nextFamily := t.nextFamily + 1),
     Issued(t.nextToken, d))
  }

  function AddDevice(t: Tables, u: nat): Tables {
    t.(devices := t.devices[t.nextDevice := Device(u, false)], nextDevice := t.nextDevice + 1)
  }

  /** A named device is reused only if it is the caller's and live; otherwise a new one is created. */
  function Resolve(t: Tables, u: nat, device: Option<nat>): (Tables, nat) {
    if device.Some? && LiveDevice(t, device.value, u) then (t, device.value) else (AddDevice(t, u), t.nextDevice)
  }

  function Rotated(t: Tables, i: nat, now: int): (Tables, Outcome)
    requires i in t.tokens
  {
    var current := t.tokens[i];
    var replacement := Token(current.user, current.device, current.family, now + REFRESH_TOKEN_TTL, false, None);
    (t.(tokens := t.tokens[t.nextToken := replacement]
                          [i := current.(revoked := true, replacedBy := Some(t.nextToken))],
        nextToken := t.nextToken + 1),
     Issued(t.nextToken, current.device))
  }

  function Do(t: Tables, c: Call): (Tables, Outcome) {
    match c
    case Register(u, now) =>
      if u in t.users then (t, EmailTaken)
      else Issue(AddDevice(t.(users := t.users + {u}), u), u, t.nextDevice, now)
    case Login(u, device, now) =>
      if u !in t.users then (t, NoSuchUser)
      else var (t', d) := Resolve(t, u, device); Issue(t', u, d, now)
    case Refresh(i, inputIsValid, now) =>
      if i !in t.tokens then (t, InvalidRefreshToken)
      else if t.tokens[i].revoked then (t.(tokens := RevokeFamily(t.tokens, t.tokens[i].family)), RefreshTokenReuse)
      else if t.tokens[i].expiresAt < now then (t, InvalidRefreshToken)
      else if t.tokens[i].user !in t.users then (t, InvalidRefreshToken)
      else if !LiveDevice(t, t.tokens[i].device, t.tokens[i].user) then (t, InvalidRefreshToken)
      else if !inputIsValid then (t, Validation)
      else Rotated(t, i, now)
    case Logout(u, i) =>
      if i !in t.tokens || t.tokens[i].user != u then (t, InvalidRefreshToken)
      else (t.(tokens := RevokeFamilyForUser(t.tokens, t.tokens[i].family, u)), Done)
    case RevokeDevice(u, d) =>
      if !LiveDevice(t, d, u) then (t, DeviceNotFound)
      else (t.(devices := t.devices[d := Device(u, true)], tokens := RevokeByDevice(t.tokens, d, u)), Done)
  }

  // ---- The calls themselves

  class AuthService {
    var users: set<nat>
    var devices: map<nat, Device>
    var tokens: map<nat, Token>
    var nextDevice: nat
    var nextToken: nat
    var nextFamily: nat

    constructor ()
      ensures Contents() == EMPTY
    {
      users, devices, tokens, nextDevice, nextToken, nextFamily := {}, map[], map[], 0, 0, 0;
    }

    function Contents(): Tables
      reads this
    {
      Tables(users, devices, tokens, nextDevice, nextToken, nextFamily)
    }

    method CreateDevice(u: nat) returns (d: nat)
      modifies this
      ensures Contents() == AddDevice(old(Contents()), u) && d == old(nextDevice)
    {
      d := nextDevice;
      devices := devices[d := Device(u, false)];
      nextDevice := nextDevice + 1;
    }

    method CreateRefreshToken(u: nat, d: nat, family: nat, expiresAt: int) returns (i: nat)
      modifies this`tokens, this`nextToken
      ensures i == old(nextToken) && nextToken == i + 1
      ensures tokens == old(tokens)[i := Token(u, d, family, expiresAt, false, None)]
    {
      i := nextToken;
      tokens := tokens[i := Token(u, d, family, expiresAt, false, None)];
      nextToken := nextToken + 1;
    }

    /** Revoke whatever the device still has, then start a new family. */
    method IssueTokenPair(u: nat, d: nat, now: int) returns (outcome: Outcome)
      modifies this
      ensures (Contents(), outcome) == Issue(old(Contents()), u, d, now)
    {
      tokens := RevokeByDevice(tokens, d, u);
      var familyID := nextFamily;
      nextFamily := nextFamily + 1;
      var i := CreateRefreshToken(u, d, familyID, now + REFRESH_TOKEN_TTL);
      outcome := Issued(i, d);
    }

    method RegisterUser(u: nat, now: int) returns (outcome: Outcome)
      modifies this
      ensures (Contents(), outcome) == Do(old(Contents()), Register(u, now))
    {
      if u in users {
        return EmailTaken;
      }
      users := users + {u};
      var d := CreateDevice(u);
      outcome := IssueTokenPair(u, d, now);
    }

    method ResolveDevice(u: nat, device: Option<nat>) returns (d: nat)
      modifies this
      ensures (Contents(), d) == Resolve(old(Contents()), u, device)
    {
      if device.Some? {
        if device.value in devices && devices[device.value].owner == u && !devices[device.value].revoked {
          return device.value;
        }
      }
      d := CreateDevice(u);
    }

    method LogIn(u: nat, device: Option<nat>, now: int) returns (outcome: Outcome)
      modifies this
      ensures (Contents(), outcome) == Do(old(Contents()), Login(u, device, now))
    {
      if u !in users {
        return NoSuchUser;
      }
      var d := ResolveDevice(u, device);
      outcome := IssueTokenPair(u, d, now);
    }

    method RefreshToken(i: nat, inputIsValid: bool, now: int) returns (outcome: Outcome)
      modifies this
      ensures (Contents(), outcome) == Do(old(Contents()), Refresh(i, inputIsValid, now))
    {
      if i !in tokens {
        return InvalidRefreshToken;
      }
      var current := tokens[i];
      if current.revoked {
        tokens := RevokeFamily(tokens, current.family);
        return RefreshTokenReuse;
      }
      if current.expiresAt < now {
        return InvalidRefreshToken;
      }
      if current.user !in users {
        return InvalidRefreshToken;
      }
      if !(current.device in devices && devices[current.device].owner == current.user
          && !devices[current.device].revoked) {
        return InvalidRefreshToken;
      }
      if !inputIsValid {
        return Validation;
      }
      var replacement := CreateRefreshToken(current.user, current.device, current.family, now + REFRESH_TOKEN_TTL);
      tokens := tokens[i := current.(revoked := true, replacedBy := Some(replacement))];
      outcome := Issued(replacement, current.device);
    }

    method LogOut(u: nat, i: nat) returns (outcome: Outcome)
      modifies this
      ensures (Contents(), outcome) == Do(old(Contents()), Logout(u, i))
    {
      if i !in tokens {
        return InvalidRefreshToken;
      }
      if tokens[i].user != u {
        return InvalidRefreshToken;
      }
      tokens := RevokeFamilyForUser(tokens, tokens[i].family, u);
      outcome := Done;
    }

    method RevokeOneDevice(u: nat, d: nat) returns (outcome: Outcome)
      modifies this
      ensures (Contents(), outcome) == Do(old(Contents()), RevokeDevice(u, d))
    {
      if !(d in devices && devices[d].owner == u && !devices[d].revoked) {
        return DeviceNotFound;
      }
      devices := devices[d := Device(u, true)];
      tokens := RevokeByDevice(tokens, d, u);
      outcome := Done;
    }
  }

  // ---- Runs of calls

  function After(t: Tables, calls: seq<Call>): Tables
    decreases calls
  {
    if calls == [] then t else After(Do(t, calls[0]).0, calls[1..])
  }

  ghost predicate TokensFit(t: Tables) {
    (forall d :: d in t.devices ==> d < t.nextDevice)
    && forall i :: i in t.tokens ==>
         i < t.nextToken && t.tokens[i].family < t.nextFamily
         && t.tokens[i].device in t.devices && t.devices[t.tokens[i].device].owner == t.tokens[i].user
  }

  /** A family never leaves its device. */
  ghost predicate FamiliesStay(t: Tables) {
    forall i, j :: i in t.tokens && j in t.tokens && t.tokens[i].family == t.tokens[j].family ==>
      t.tokens[i].device == t.tokens[j].device
  }

  ghost predicate OnePerDevice(t: Tables) {
    forall i, j :: (i in t.tokens && j in t.tokens && t.tokens[i].device == t.tokens[j].device
                    && !t.tokens[i].revoked && !t.tokens[j].revoked) ==> i == j
  }

  ghost predicate RevokedDevicesAreSilent(t: Tables) {
    forall i :: i in t.tokens && t.tokens[i].device in t.devices && t.devices[t.tokens[i].device].revoked ==>
        t.tokens[i].revoked
  }

  ghost predicate Inv(t: Tables) {
    TokensFit(t) && FamiliesStay(t) && OnePerDevice(t) && RevokedDevicesAreSilent(t)
  }

  lemma IssueKeeps(t: Tables, u: nat, d: nat, now: int)
    requires Inv(t) && LiveDevice(t, d, u)
    ensures Inv(Issue(t, u, d, now).0)
  {
    IssueFits(t, u, d, now);
    IssueKeepsOne(t, u, d, now);
    IssueKeepsSilence(t, u, d, now);
  }

  lemma IssueFits(t: Tables, u: nat, d: nat, now: int)
    requires TokensFit(t) && FamiliesStay(t) && LiveDevice(t, d, u)
    ensures TokensFit(Issue(t, u, d, now).0) && FamiliesStay(Issue(t, u, d, now).0)
  {
    var t' := Issue(t, u, d, now).0;
    forall i | i in t'.tokens && i != t.nextToken
      ensures i in t.tokens && t'.tokens[i].family == t.tokens[i].family < t.nextFamily
              && t'.tokens[i].device == t.tokens[i].device && t'.tokens[i].user == t.tokens[i].user
    {
    }
  }

  lemma IssueKeepsOne(t: Tables, u: nat, d: nat, now: int)
    requires TokensFit(t) && OnePerDevice(t) && LiveDevice(t, d, u)
    ensures OnePerDevice(Issue(t, u, d, now).0)
  {
    var t' := Issue(t, u, d, now).0;
    forall i | i in t'.tokens && i != t.nextToken && !t'.tokens[i].revoked
      ensures i in t.tokens && !t.tokens[i].revoked && t'.tokens[i].device == t.tokens[i].device
              && t.tokens[i].device != d
    {
    }
  }

  lemma IssueKeepsSilence(t: Tables, u: nat, d: nat, now: int)
    requires RevokedDevicesAreSilent(t) && LiveDevice(t, d, u)
    ensures RevokedDevicesAreSilent(Issue(t, u, d, now).0)
  {
    var t' := Issue(t, u, d, now).0;
    forall i | i in t'.tokens && i != t.nextToken
      ensures i in t.tokens && t'.tokens[i].device == t.tokens[i].device
              && (t.tokens[i].revoked ==> t'.tokens[i].revoked)
    {
    }
  }

  lemma AddDeviceKeeps(t: Tables, u: nat)
    requires Inv(t)
    ensures Inv(AddDevice(t, u)) && LiveDevice(AddDevice(t, u), t.nextDevice, u)
  {
  }

  lemma RotatedKeeps(t: Tables, i: nat, now: int)
    requires Inv(t) && i in t.tokens && !t.tokens[i].revoked && LiveDevice(t, t.tokens[i].device, t.tokens[i].user)
    ensures Inv(Rotated(t, i, now).0)
  {
  }

  lemma CallKeeps(t: Tables, c: Call)
    requires Inv(t)
    ensures Inv(Do(t, c).0)
  {
    match c
    case Register(u, now) =>
      if u !in t.users {
        var t1 := t.(users := t.users + {u});
        AddDeviceKeeps(t1, u);
        IssueKeeps(AddDevice(t1, u), u, t.nextDevice, now);
      }
    case Login(u, device, now) =>
      if u in t.users {
        AddDeviceKeeps(t, u);
        var (t1, d) := Resolve(t, u, device);
        IssueKeeps(t1, u, d, now);
      }
    case Refresh(i, inputIsValid, now) =>
      if Do(t, c).1.Issued? { RotatedKeeps(t, i, now); }
      if Do(t, c).1.RefreshTokenReuse? { RevokingKeeps(t, RevokeFamily(t.tokens, t.tokens[i].family)); }
    case Logout(u, i) =>
      if Do(t, c).1.Done? { RevokingKeeps(t, RevokeFamilyForUser(t.tokens, t.tokens[i].family, u)); }
    case RevokeDevice(u, d) =>
      if LiveDevice(t, d, u) { RevokeDeviceKeeps(t, u, d); }
  }

  /** Revocations change no column but revoked_at. */
  ghost predicate OnlyRevokes(tokens: map<nat, Token>, tokens': map<nat, Token>) {
    tokens'.Keys == tokens.Keys
    && forall i :: i in tokens ==> tokens'[i] == tokens[i] || tokens'[i] == tokens[i].(revoked := true)
  }

  lemma RevokingKeeps(t: Tables, tokens': map<nat, Token>)
    requires Inv(t) && OnlyRevokes(t.tokens, tokens')
    ensures Inv(t.(tokens := tokens'))
  {
    var t' := t.(tokens := tokens');
    forall i | i in t'.tokens
      ensures i in t.tokens && t'.tokens[i].family == t.tokens[i].family && t'.tokens[i].device == t.tokens[i].device
              && t'.tokens[i].user == t.tokens[i].user && (t.tokens[i].revoked ==> t'.tokens[i].revoked)
    {
    }
    assert TokensFit(t') && FamiliesStay(t') && OnePerDevice(t') && RevokedDevicesAreSilent(t');
  }

  lemma RevokeDeviceKeeps(t: Tables, u: nat, d: nat)
    requires Inv(t) && LiveDevice(t, d, u)
    ensures Inv(Do(t, RevokeDevice(u, d)).0)
  {
    var t1 := t.(tokens := RevokeByDevice(t.tokens, d, u));
    RevokingKeeps(t, t1.tokens);
    assert forall i :: i in t1.tokens && t1.tokens[i].device == d ==> t1.tokens[i].revoked;
    RevokeSilentDevice(t1, u, d);
  }

  lemma RevokeSilentDevice(t: Tables, u: nat, d: nat)
    requires Inv(t) && LiveDevice(t, d, u)
    requires forall i :: i in t.tokens && t.tokens[i].device == d ==> t.tokens[i].revoked
    ensures Inv(t.(devices := t.devices[d := Device(u, true)]))
  {
  }

  lemma {:induction false} RunKeeps(t: Tables, calls: seq<Call>)
    requires Inv(t)
    ensures Inv(After(t, calls))
    decreases calls
  {
    if calls != [] {
      CallKeeps(t, calls[0]);
      RunKeeps(Do(t, calls[0]).0, calls[1..]);
    }
  }

  /** Exactly one active refresh token per device: after any run no device has two unrevoked tokens, and a login
      or refresh that succeeds leaves its device with exactly the token it returned. */
  lemma OneActiveTokenPerDevice(calls: seq<Call>, c: Call)
    ensures OnePerDevice(After(EMPTY, calls))
    ensures var t := After(EMPTY, calls);
            var (t', r) := Do(t, c);
            r.Issued? ==> r.token in t'.tokens && !t'.tokens[r.token].revoked && t'.tokens[r.token].device == r.device
                          && forall i :: i in t'.tokens && t'.tokens[i].device == r.device && !t'.tokens[i].revoked ==>
                             i == r.token
  {
    RunKeeps(EMPTY, calls);
    CallKeeps(After(EMPTY, calls), c);
    IssuedIsLive(After(EMPTY, calls), c);
  }

  lemma IssuedIsLive(t: Tables, c: Call)
    requires TokensFit(t)
    ensures var (t', r) := Do(t, c);
            r.Issued? ==> r.token in t'.tokens && !t'.tokens[r.token].revoked && t'.tokens[r.token].device == r.device
  {
  }

  // ---- What each call answers and leaves alone

  /** When a refresh reports reuse, when it succeeds, and when its input is at fault. */
  lemma RefreshAnswers(t: Tables, i: nat, ok: bool, now: int)
    requires Inv(t) && UsersKnown(t)
    ensures var (t', r) := Do(t, Refresh(i, ok, now));
            var alive := i in t.tokens && !t.tokens[i].revoked && now <= t.tokens[i].expiresAt;
            (r == RefreshTokenReuse <==> i in t.tokens && t.tokens[i].revoked)
            && (r.Issued? <==> alive && ok) && (r == Validation <==> alive && !ok)
            && (r == InvalidRefreshToken <==> !alive && r != RefreshTokenReuse)
            && (r == Validation || r == InvalidRefreshToken ==> t' == t)
            && (r.Issued? ==> r.token !in t.tokens && r.device == t.tokens[i].device
                              && t'.tokens[i] == t.tokens[i].(revoked := true, replacedBy := Some(r.token)))
  {
  }

  /** A call leaves alone every token that is not of the device it issues for or revokes, or of the family it revokes,
      and every device but the one it adds or revokes. */
  lemma OthersAreLeftAlone(t: Tables, c: Call, j: nat)
    requires Inv(t) && j in t.tokens
    ensures var (t', r) := Do(t, c);
            j in t'.tokens
            && (match c
                case Register(_, _) => t'.tokens[j] == t.tokens[j]
                case Login(_, _, _) => (r.Issued? && t.tokens[j].device == r.device) || t'.tokens[j] == t.tokens[j]
                case Refresh(i, _, _) =>
                  (r.Issued? && j == i)
                  || (r == RefreshTokenReuse && t.tokens[j].family == t.tokens[i].family
                      && t'.tokens[j] == t.tokens[j].(revoked := true))
                  || t'.tokens[j] == t.tokens[j]
                case Logout(_, i) =>
                  (r == Done && t.tokens[j].family == t.tokens[i].family
                   && t'.tokens[j] == t.tokens[j].(revoked := true))
                  || t'.tokens[j] == t.tokens[j]
                case RevokeDevice(_, d) =>
                  (r == Done && t.tokens[j].device == d && t'.tokens[j] == t.tokens[j].(revoked := true))
                  || t'.tokens[j] == t.tokens[j])
            && forall d :: d in t.devices ==>
                 d in t'.devices && (t'.devices[d] == t.devices[d] || (c.RevokeDevice? && r == Done && d == c.device))
  {
  }

  /** Registering is refused for a user there is, and logging in for one there is not, changing nothing; otherwise a
      registration adds the user with one live device of its own. */
  lemma EntryAnswers(t: Tables, u: nat, wanted: Option<nat>, now: int)
    requires Inv(t)
    ensures var (t', r) := Do(t, Register(u, now));
            if u in t.users then t' == t && r == EmailTaken
            else r.Issued? && t'.users == t.users + {u} && r.device !in t.devices
                 && t'.devices == t.devices[r.device := Device(u, false)]
    ensures var (t', r) := Do(t, Login(u, wanted, now));
            t'.users == t.users && (if u in t.users then r.Issued? else t' == t && r == NoSuchUser)
  {
  }

  /** Whose calls are refused: a logout of a token that is unknown or another user's, and the revocation of a device
      that is unknown, another user's or already revoked; they change nothing. */
  lemma ForeignCallsAreRefused(t: Tables, u: nat, i: nat)
    requires Inv(t)
    ensures Do(t, Logout(u, i)).1 == (if i in t.tokens && t.tokens[i].user == u then Done else InvalidRefreshToken)
    ensures Do(t, Logout(u, i)).1 != Done ==> Do(t, Logout(u, i)).0 == t
    ensures Do(t, RevokeDevice(u, i)).1
            == (if i in t.devices && t.devices[i] == Device(u, false) then Done else DeviceNotFound)
    ensures Do(t, RevokeDevice(u, i)).1 != Done ==> Do(t, RevokeDevice(u, i)).0 == t
  {
  }

  // ---- How long a token lives

  /** Every token's user is registered. */
  ghost predicate UsersKnown(t: Tables) { forall i :: i in t.tokens ==> t.tokens[i].user in t.users }

  lemma CallKeepsUsers(t: Tables, c: Call)
    requires UsersKnown(t)
    ensures UsersKnown(Do(t, c).0)
  {
  }

  lemma {:induction false} RunKeepsUsers(t: Tables, calls: seq<Call>)
    requires UsersKnown(t)
    ensures UsersKnown(After(t, calls))
    decreases calls
  {
    if calls != [] {
      CallKeepsUsers(t, calls[0]);
      RunKeepsUsers(Do(t, calls[0]).0, calls[1..]);
    }
  }

  function ClockOf(c: Call): int {
    match c
    case Register(_, now) => now
    case Login(_, _, now) => now
    case Refresh(_, _, now) => now
    case Logout(_, _) => 0
    case RevokeDevice(_, _) => 0
  }

  lemma CallKeepsExpiry(t: Tables, c: Call, i: nat)
    requires TokensFit(t) && i in t.tokens
    ensures i in Do(t, c).0.tokens && Do(t, c).0.tokens[i].expiresAt == t.tokens[i].expiresAt
  {
  }

  lemma {:induction false} RunKeepsExpiry(t: Tables, calls: seq<Call>, i: nat)
    requires Inv(t) && i in t.tokens
    ensures i in After(t, calls).tokens && After(t, calls).tokens[i].expiresAt == t.tokens[i].expiresAt
    decreases calls
  {
    if calls != [] {
      CallKeeps(t, calls[0]);
      CallKeepsExpiry(t, calls[0], i);
      RunKeepsExpiry(Do(t, calls[0]).0, calls[1..], i);
    }
  }

  lemma IssuedExpires(t: Tables, c: Call)
    requires TokensFit(t)
    ensures var (t', r) := Do(t, c);
            r.Issued? ==> r.token in t'.tokens && t'.tokens[r.token].expiresAt == ClockOf(c) + 2_592_000
  {
  }

  /** A token refreshes, whatever was called since it was issued, exactly as long as it is unrevoked and no more than 30
      days old. */
  lemma TokenLivesThirtyDays(calls: seq<Call>, c: Call, later: seq<Call>, now: int)
    requires Do(After(EMPTY, calls), c).1.Issued?
    ensures var (t', r) := Do(After(EMPTY, calls), c);
            var z := After(t', later);
            r.token in z.tokens
            && (Do(z, Refresh(r.token, true, now)).1.Issued? <==>
                  !z.tokens[r.token].revoked && now <= ClockOf(c) + 2_592_000)
  {
    var t := After(EMPTY, calls);
    var (t', r) := Do(t, c);
    RunKeeps(EMPTY, calls);
    RunKeepsUsers(EMPTY, calls);
    CallKeeps(t, c);
    CallKeepsUsers(t, c);
    IssuedExpires(t, c);
    RunKeeps(t', later);
    RunKeepsUsers(t', later);
    RunKeepsExpiry(t', later, r.token);
    RefreshIffAlive(After(t', later), r.token, now);
  }

  lemma RefreshIffAlive(z: Tables, i: nat, now: int)
    requires Inv(z) && UsersKnown(z) && i in z.tokens
    ensures Do(z, Refresh(i, true, now)).1.Issued? <==> !z.tokens[i].revoked && now <= z.tokens[i].expiresAt
  {
  }

  /** A login that names a live device of the user's adds no device and issues for that one; any other login adds
      exactly one, live and the user's, and issues for it. */
  lemma LoginUsesTheNamedDevice(t: Tables, u: nat, wanted: Option<nat>, now: int)
    requires Inv(t) && u in t.users
    ensures var (t', r) := Do(t, Login(u, wanted, now));
            r.Issued?
            && if wanted.Some? && wanted.value in t.devices && t.devices[wanted.value] == Device(u, false)
               then t'.devices == t.devices && r.device == wanted.value
               else r.device !in t.devices && t'.devices == t.devices[r.device := Device(u, false)]
  {
  }

  // ---- Dead families

  ghost predicate Dead(t: Tables, f: nat) {
    f < t.nextFamily && forall i :: i in t.tokens && t.tokens[i].family == f ==> t.tokens[i].revoked
  }

  lemma DeadStaysDead(t: Tables, f: nat, c: Call)
    requires Dead(t, f)
    ensures Dead(Do(t, c).0, f)
  {
  }

  lemma {:induction false} DeadForever(t: Tables, f: nat, calls: seq<Call>)
    requires Dead(t, f)
    ensures Dead(After(t, calls), f)
    decreases calls
  {
    if calls != [] {
      DeadStaysDead(t, f, calls[0]);
      DeadForever(Do(t, calls[0]).0, f, calls[1..]);
    }
  }

  /** A reuse report or a logout kills the family. */
  lemma KillsFamily(t: Tables, c: Call)
    requires Inv(t)
    requires (c.Refresh? && Do(t, c).1 == RefreshTokenReuse) || (c.Logout? && Do(t, c).1 == Done)
    ensures c.token in t.tokens && Dead(Do(t, c).0, t.tokens[c.token].family)
  {
  }

  /** After a reuse report or a logout no token of that family, old or yet to come, is ever accepted again. */
  lemma NoAcceptanceAfterKill(calls: seq<Call>, c: Call, later: seq<Call>, i: nat, ok: bool, now: int)
    requires var t := After(EMPTY, calls);
             ((c.Refresh? && Do(t, c).1 == RefreshTokenReuse) || (c.Logout? && Do(t, c).1 == Done))
    ensures var t := After(EMPTY, calls);
            var z := After(Do(t, c).0, later);
            c.token in t.tokens
            && (i in z.tokens && z.tokens[i].family == t.tokens[c.token].family ==>
               !Do(z, Refresh(i, ok, now)).1.Issued?)
  {
    RunKeeps(EMPTY, calls);
    var t := After(EMPTY, calls);
    KillsFamily(t, c);
    DeadForever(Do(t, c).0, t.tokens[c.token].family, later);
  }

  // ---- Revoked devices

  lemma {:induction false} RevokedDeviceForever(t: Tables, d: nat, calls: seq<Call>)
    requires Inv(t) && d in t.devices && t.devices[d].revoked
    ensures d in After(t, calls).devices && After(t, calls).devices[d].revoked
    decreases calls
  {
    if calls != [] {
      CallKeeps(t, calls[0]);
      RevokedDeviceForever(Do(t, calls[0]).0, d, calls[1..]);
    }
  }

  /** After a device is revoked it never becomes live again and no token bound to it ever refreshes. */
  lemma RevokedDeviceIsSilent(calls: seq<Call>, u: nat, d: nat, later: seq<Call>, i: nat, ok: bool, now: int)
    requires Do(After(EMPTY, calls), RevokeDevice(u, d)).1 == Done
    ensures var z := After(Do(After(EMPTY, calls), RevokeDevice(u, d)).0, later);
            (forall v: nat :: !LiveDevice(z, d, v))
            && (i in z.tokens && z.tokens[i].device == d ==>
               z.tokens[i].revoked && !Do(z, Refresh(i, ok, now)).1.Issued?)
  {
    RunKeeps(EMPTY, calls);
    var t := After(EMPTY, calls);
    CallKeeps(t, RevokeDevice(u, d));
    var t' := Do(t, RevokeDevice(u, d)).0;
    RevokedDeviceForever(t', d, later);
    RunKeeps(t', later);
  }

  // ---- The serial refresh is the transaction run alone

  function Abstract(tokens: map<nat, Token>): map<nat, Rotation.Token> {
    map i | i in tokens :: Rotation.Token(tokens[i].family, tokens[i].device, tokens[i].revoked, tokens[i].replacedBy)
  }

  /** With no other transaction open, lock, insert and commit leave the table the serial call leaves. */
  lemma SerialRefreshIsUncontendedRotation(t: Tables, i: nat, now: int, s: Rotation.Store)
    requires Do(t, Refresh(i, true, now)).1.Issued? && TokensFit(t)
    requires s.tokens == Abstract(t.tokens) && s.nextToken == t.nextToken && i !in s.locks
    ensures var n := s.nextTxn;
            var steps := [Rotation.TryLock(i), Rotation.InsertReplacement(n), Rotation.CommitRotation(n)];
            Rotation.Legal(s, steps) && Rotation.Run(s, steps).tokens == Abstract(Do(t, Refresh(i, true, now)).0.tokens)
  {
    var n := s.nextTxn;
    var s1 := Rotation.Apply(s, Rotation.TryLock(i));
    assert i in Abstract(t.tokens) && !Abstract(t.tokens)[i].revoked;
    var s2 := Rotation.Apply(s1, Rotation.InsertReplacement(n));
    var s3 := Rotation.Apply(s2, Rotation.CommitRotation(n));
    Rotation.ThreeSteps(s, Rotation.TryLock(i), Rotation.InsertReplacement(n), Rotation.CommitRotation(n));
    assert s3.tokens == Rotation.Rotate(Abstract(t.tokens), i, t.nextToken);
    AbstractRotated(t, i, now);
  }

  lemma AbstractRotated(t: Tables, i: nat, now: int)
    requires TokensFit(t) && i in t.tokens
    ensures Rotation.Rotate(Abstract(t.tokens), i, t.nextToken) == Abstract(Rotated(t, i, now).0.tokens)
  {
  }
}
