/** Accounts, access tokens and refresh tokens: how sessions are issued, rotated and revoked. */
module Sessions {
  import opened Options
  import SocialModel

  type UserId = SocialModel.UserId
  /** A raw refresh token; hashing is injective, so the stored hash is identified with it. */
  type Token = nat

  datatype Standing = Active | Suspended
  datatype Role = Member | Moderator | Admin {
    predicate MaySuspend() {
      Moderator? || Admin?
    }
  }

  /** `password` stands for the stored hash: a candidate verifies when it is equal. */
  datatype Account = Account(handle: string, email: string, password: string, standing: Standing, role: Role, version: nat)

  datatype RefreshRow = RefreshRow(user: UserId, expiresAt: int, revoked: bool)

  /** The signed payload of an access token. */
  datatype Access = Access(user: UserId, version: nat, expiresAt: int)

  datatype TokenPair = TokenPair(access: Access, refresh: Token)

  datatype Store = Store(accounts: map<UserId, Account>, tokens: map<Token, RefreshRow>)

  /** Times are in seconds. */
  const ACCESS_LIFETIME: int := 30 * 60
  const REFRESH_LIFETIME: int := 14 * 24 * 3600

  datatype Request =
    | SignUp(id: UserId, handle: string, email: string, password: string)
    | Login(email: string, password: string)
    | Refresh(raw: Token)
    | Logout(body: Option<Token>)
    | LogoutAll(access: Option<Access>)
    | ChangePassword(access: Option<Access>, oldPassword: string, newPassword: string)
    | EraseMe(access: Option<Access>, password: string, suffix: string, secret: string)
    | Suspend(access: Option<Access>, target: UserId)
    | Unsuspend(access: Option<Access>, target: UserId)
    | GrantRole(access: Option<Access>, target: UserId, role: Role)

  /** A request with the time of its arrival and the random token drawn if it issues one. */
  datatype Event = Event(request: Request, now: int, drawn: Token)

  datatype Outcome = Outcome(store: Store, issued: Option<TokenPair>)

  // ----- The requests

  /** `get_current_user`. */
  function Authenticate(s: Store, access: Option<Access>, now: int): (r: Result<UserId>)
    ensures r.Success? ==> r.value in s.accounts
  {
    match access
    case None => Failure(401)
    case Some(a) =>
      if a.expiresAt <= now then Failure(401)
      else if a.user !in s.accounts then Failure(401)
      else if s.accounts[a.user].standing != Active then Failure(403)
      else if s.accounts[a.user].version != a.version then Failure(401)
      else Success(a.user)
  }

  function PairFor(s: Store, user: UserId, now: int, drawn: Token): TokenPair
    requires user in s.accounts
  {
    TokenPair(Access(user, s.accounts[user].version, now + ACCESS_LIFETIME), drawn)
  }

  /** `issue_token_pair`: the hash column is unique, so a repeated random token cannot be stored. */
  function Issue(s: Store, user: UserId, now: int, drawn: Token): Result<Outcome>
    requires user in s.accounts
  {
    if drawn in s.tokens then Failure(500)
    else Success(Outcome(s.(tokens := s.tokens[drawn := RefreshRow(user, now + REFRESH_LIFETIME, false)]),
                         Some(PairFor(s, user, now, drawn))))
  }

  /** The accounts that hold the handle or the address. */
  function Holders(s: Store, handle: string, email: string): set<UserId> {
    set u | u in s.accounts && (s.accounts[u].handle == handle || s.accounts[u].email == email)
  }

  predicate Taken(s: Store, handle: string, email: string) {
    Holders(s, handle, email) != {}
  }

  ghost predicate IsLeast(ids: set<nat>, m: nat) {
    m in ids && forall x :: x in ids ==> m <= x
  }

  lemma {:induction false} LeastExists(ids: set<nat>)
    requires ids != {}
    ensures exists m :: IsLeast(ids, m)
  {
    var i :| i in ids;
    var rest := ids - {i};
    if rest == {} {
      assert ids == {i};
      assert IsLeast(ids, i);
    } else {
      LeastExists(rest);
      var m :| IsLeast(rest, m);
      var least := if i < m then i else m;
      forall x | x in ids
        ensures least <= x
      {
        assert x == i || x in rest;
      }
      assert IsLeast(ids, least);
    }
  }

  /** The account with an email address; the column is unique, so there is at most one. */
  function ByEmail(s: Store, email: string): (r: Option<UserId>)
    ensures r.Some? ==> r.value in s.accounts && s.accounts[r.value].email == email
    ensures r.None? ==> forall u :: u in s.accounts ==> s.accounts[u].email != email
  {
    var ids := set u | u in s.accounts && s.accounts[u].email == email;
    if ids == {} then
      assert forall u :: u in s.accounts && s.accounts[u].email == email ==> u in ids;
      None
    else
      LeastExists(ids);
      assert forall m :: IsLeast(ids, m) ==> m in ids;
      var least :| least in ids && forall x :: x in ids ==> least <= x;
      Some(least)
  }

  function RevokeAll(tokens: map<Token, RefreshRow>, user: UserId): map<Token, RefreshRow> {
    map k | k in tokens :: if tokens[k].user == user then tokens[k].(revoked := true) else tokens[k]
  }

  /** A change to the account, a new version, and no refresh token left. */
  function Reset(s: Store, user: UserId, account: Account): Store {
    Store(s.accounts[user := account.(version := account.version + 1)], RevokeAll(s.tokens, user))
  }

  /** The lookup for a taken handle or address expects at most one account; two are an unhandled error. */
  function SignUpResult(s: Store, id: UserId, handle: string, email: string, password: string, now: int, drawn: Token)
    : Result<Outcome>
  {
    if |Holders(s, handle, email)| > 1 then Failure(500)
    else if Taken(s, handle, email) then Failure(409)
    else if id in s.accounts then Failure(500)
    else Issue(s.(accounts := s.accounts[id := Account(handle, email, password, Active, Member, 0)]), id, now, drawn)
  }

  function LoginResult(s: Store, email: string, password: string, now: int, drawn: Token): Result<Outcome> {
    match ByEmail(s, email)
    case None => Failure(401)
    case Some(u) =>
      if s.accounts[u].password != password then Failure(401)
      else if s.accounts[u].standing != Active then Failure(403)
      else Issue(s, u, now, drawn)
  }

  function RefreshResult(s: Store, raw: Token, now: int, drawn: Token): Result<Outcome> {
    if raw !in s.tokens || s.tokens[raw].revoked || s.tokens[raw].expiresAt <= now then Failure(401)
    else
      var user := s.tokens[raw].user;
      if user !in s.accounts || s.accounts[user].standing != Active then Failure(401)
      else Issue(s.(tokens := s.tokens[raw := s.tokens[raw].(revoked := true)]), user, now, drawn)
  }

  /** Logging out never fails; an unknown or revoked token changes nothing. */
  function LogoutResult(s: Store, body: Option<Token>): Store {
    match body
    case None => s
    case Some(raw) =>
      if raw in s.tokens && !s.tokens[raw].revoked then s.(tokens := s.tokens[raw := s.tokens[raw].(revoked := true)])
      else s
  }

  function ChangePasswordResult(s: Store, access: Option<Access>, oldPassword: string, newPassword: string, now: int)
    : Result<Store>
  {
    var me :- Authenticate(s, access, now);
    if s.accounts[me].password != oldPassword then Failure(401)
    else Success(Reset(s, me, s.accounts[me].(password := newPassword)))
  }

  function EraseResult(s: Store, access: Option<Access>, password: string, suffix: string, secret: string, now: int)
    : Result<Store>
  {
    var me :- Authenticate(s, access, now);
    var handle, email := "deleted_" + suffix, "deleted_" + suffix + "@invalid.local";
    if s.accounts[me].password != password then Failure(401)
    else if Taken(s.(accounts := s.accounts - {me}), handle, email) then Failure(500)
    else Success(Reset(s, me, s.accounts[me].(handle := handle, email := email, password := secret)))
  }

  function SuspendResult(s: Store, access: Option<Access>, target: UserId, now: int): Result<Store> {
    var me :- Authenticate(s, access, now);
    if !s.accounts[me].role.MaySuspend() then Failure(403)
    else if target !in s.accounts then Failure(404)
    else if target == me then Failure(400)
    else
      var account := s.accounts[target];
      Success(s.(accounts := s.accounts[target := account.(standing := Suspended, version := account.version + 1)]))
  }

  function UnsuspendResult(s: Store, access: Option<Access>, target: UserId, now: int): Result<Store> {
    var me :- Authenticate(s, access, now);
    if !s.accounts[me].role.MaySuspend() then Failure(403)
    else if target !in s.accounts then Failure(404)
    else Success(s.(accounts := s.accounts[target := s.accounts[target].(standing := Active)]))
  }

  function GrantRoleResult(s: Store, access: Option<Access>, target: UserId, role: Role, now: int): Result<Store> {
    var me :- Authenticate(s, access, now);
    if !s.accounts[me].role.Admin? then Failure(403)
    else if target !in s.accounts then Failure(404)
    else Success(s.(accounts := s.accounts[target := s.accounts[target].(role := role)]))
  }

  function LogoutAllResult(s: Store, access: Option<Access>, now: int): Result<Store> {
    var me :- Authenticate(s, access, now);
    Success(Reset(s, me, s.accounts[me]))
  }

  function Quietly(r: Result<Store>): Result<Outcome> {
    match r
    case Success(s) => Success(Outcome(s, None))
    case Failure(code) => Failure(code)
  }

  function Attempt(s: Store, e: Event): Result<Outcome> {
    match e.request
    case SignUp(id, handle, email, password) => SignUpResult(s, id, handle, email, password, e.now, e.drawn)
    case Login(email, password) => LoginResult(s, email, password, e.now, e.drawn)
    case Refresh(raw) => RefreshResult(s, raw, e.now, e.drawn)
    case Logout(body) => Success(Outcome(LogoutResult(s, body), None))
    case LogoutAll(access) => Quietly(LogoutAllResult(s, access, e.now))
    case ChangePassword(access, old_, new_) => Quietly(ChangePasswordResult(s, access, old_, new_, e.now))
    case EraseMe(access, password, suffix, secret) => Quietly(EraseResult(s, access, password, suffix, secret, e.now))
    case Suspend(access, target) => Quietly(SuspendResult(s, access, target, e.now))
    case Unsuspend(access, target) => Quietly(UnsuspendResult(s, access, target, e.now))
    case GrantRole(access, target, role) => Quietly(GrantRoleResult(s, access, target, role, e.now))
  }

  function Step(s: Store, e: Event): Store {
    match Attempt(s, e)
    case Success(o) => o.store
    case Failure(_) => s
  }

  /** The events of a run in order, from any store. */
  function Run(s: Store, es: seq<Event>): Store
    decreases |es|
  {
    if es == [] then s else Run(Step(s, es[0]), es[1..])
  }

  // ----- Access tokens

  /** The account whose version an event raises. */
  function Bumped(s: Store, e: Event): Option<UserId> {
    if Attempt(s, e).Failure? then None
    else
      match e.request
      case LogoutAll(access) => Some(access.value.user)
      case ChangePassword(access, _, _) => Some(access.value.user)
      case EraseMe(access, _, _, _) => Some(access.value.user)
      case Suspend(_, target) => Some(target)
      case _ => None
  }

  /** How often a run logs `u` out everywhere: logout-all, password changes, erasure and suspensions. */
  function Bumps(s: Store, es: seq<Event>, u: UserId): nat
    decreases |es|
  {
    if es == [] then 0
    else (if Bumped(s, es[0]) == Some(u) then 1 else 0) + Bumps(Step(s, es[0]), es[1..], u)
  }

  lemma StepVersion(s: Store, e: Event, u: UserId)
    requires u in s.accounts
    ensures var next := Step(s, e);
      u in next.accounts
      && next.accounts[u].version == s.accounts[u].version + if Bumped(s, e) == Some(u) then 1 else 0
  {
  }

  lemma {:induction false} VersionCountsBumps(s: Store, es: seq<Event>, u: UserId)
    requires u in s.accounts
    ensures var last := Run(s, es);
      u in last.accounts && last.accounts[u].version == s.accounts[u].version + Bumps(s, es, u)
    decreases |es|
  {
    if es != [] {
      StepVersion(s, es[0], u);
      VersionCountsBumps(Step(s, es[0]), es[1..], u);
    }
  }

  lemma IssuedVersion(s: Store, e: Event)
    requires Attempt(s, e).Success? && Attempt(s, e).value.issued.Some?
    ensures var a := Attempt(s, e).value.issued.value.access;
      var next := Step(s, e);
      && a.user in next.accounts && next.accounts[a.user].version == a.version
      && next.accounts[a.user].standing == Active && a.expiresAt == e.now + ACCESS_LIFETIME
  {
  }

  /** The life of an access token, over any run after the event that issued it: it authenticates exactly while it has not
      expired, its account is active, and no logout-all, password change, erasure or suspension of the account lies in
      between. So one such event ends it for good, also after an unsuspension. */
  lemma TokenLife(s: Store, e: Event, after: seq<Event>, now: int)
    requires Attempt(s, e).Success? && Attempt(s, e).value.issued.Some?
    ensures var a := Attempt(s, e).value.issued.value.access;
      var last := Run(Step(s, e), after);
      && a.user in last.accounts
      && (Authenticate(last, Some(a), now).Success? <==>
           && now < e.now + ACCESS_LIFETIME
           && last.accounts[a.user].standing == Active
           && Bumps(Step(s, e), after, a.user) == 0)
  {
    IssuedVersion(s, e);
    VersionCountsBumps(Step(s, e), after, Attempt(s, e).value.issued.value.access.user);
  }

  lemma {:induction false} BumpsAdd(s: Store, es: seq<Event>, more: seq<Event>, u: UserId)
    ensures Bumps(s, es + more, u) == Bumps(s, es, u) + Bumps(Run(s, es), more, u)
    ensures Run(s, es + more) == Run(Run(s, es), more)
    decreases |es|
  {
    if es == [] {
      assert es + more == more;
    } else {
      assert (es + more)[1..] == es[1..] + more;
      BumpsAdd(Step(s, es[0]), es[1..], more, u);
    }
  }

  /** A token of a suspended account does not come back when the account does. */
  lemma SuspensionIsFinal(s: Store, e: Event, before: seq<Event>, suspend: Event, after: seq<Event>, now: int)
    requires Attempt(s, e).Success? && Attempt(s, e).value.issued.Some?
    requires Bumped(Run(Step(s, e), before), suspend) == Some(Attempt(s, e).value.issued.value.access.user)
    ensures var last := Run(Step(s, e), before + [suspend] + after);
      Authenticate(last, Some(Attempt(s, e).value.issued.value.access), now).Failure?
  {
    var u := Attempt(s, e).value.issued.value.access.user;
    var issued := Step(s, e);
    TokenLife(s, e, before + [suspend] + after, now);
    BumpsAdd(issued, before + [suspend], after, u);
    BumpsAdd(issued, before, [suspend], u);
    assert Bumps(Run(issued, before), [suspend], u) == 1;
  }

  // ----- Refresh tokens

  /** The event spends the token: a successful rotation, or a logout that finds it unrevoked. */
  predicate Spends(s: Store, e: Event, raw: Token) {
    match e.request
    case Refresh(r) => r == raw && Attempt(s, e).Success?
    case Logout(body) => body == Some(raw) && raw in s.tokens && !s.tokens[raw].revoked
    case _ => false
  }

  function TimesSpent(s: Store, es: seq<Event>, raw: Token): nat
    decreases |es|
  {
    if es == [] then 0 else (if Spends(s, es[0], raw) then 1 else 0) + TimesSpent(Step(s, es[0]), es[1..], raw)
  }

  predicate Revoked(s: Store, raw: Token) {
    raw in s.tokens && s.tokens[raw].revoked
  }

  lemma RevokedStays(s: Store, e: Event, raw: Token)
    requires Revoked(s, raw)
    ensures Revoked(Step(s, e), raw) && !Spends(s, e, raw)
  {
  }

  lemma SpendingRevokes(s: Store, e: Event, raw: Token)
    requires Spends(s, e, raw)
    ensures Revoked(Step(s, e), raw)
  {
  }

  lemma {:induction false} RevokedNeverSpent(s: Store, es: seq<Event>, raw: Token)
    requires Revoked(s, raw)
    ensures TimesSpent(s, es, raw) == 0 && Revoked(Run(s, es), raw)
    decreases |es|
  {
    if es != [] {
      RevokedStays(s, es[0], raw);
      RevokedNeverSpent(Step(s, es[0]), es[1..], raw);
    }
  }

  /** Over any run, each refresh token is rotated or logged out successfully at most once. */
  lemma {:induction false} SpentOnce(s: Store, es: seq<Event>, raw: Token)
    ensures TimesSpent(s, es, raw) <= 1
    decreases |es|
  {
    if es != [] {
      if Spends(s, es[0], raw) {
        SpendingRevokes(s, es[0], raw);
        RevokedNeverSpent(Step(s, es[0]), es[1..], raw);
      } else {
        SpentOnce(Step(s, es[0]), es[1..], raw);
      }
    }
  }

  // ----- Unrevoked sessions

  function UnrevokedIn(tokens: map<Token, RefreshRow>, u: UserId): set<Token> {
    set k | k in tokens && tokens[k].user == u && !tokens[k].revoked
  }

  function Unrevoked(s: Store, u: UserId): set<Token> {
    UnrevokedIn(s.tokens, u)
  }

  /** The number of unrevoked tokens of `u` after an event, from the number before. */
  function Balance(s: Store, e: Event, u: UserId, n: int): int {
    if Attempt(s, e).Failure? then n
    else
      match e.request
      case SignUp(id, _, _, _) => if u == id then n + 1 else n
      case Login(email, _) => if ByEmail(s, email) == Some(u) then n + 1 else n
      case Logout(body) =>
        if body.Some? && Spends(s, e, body.value) && s.tokens[body.value].user == u then n - 1 else n
      case LogoutAll(_) => if Bumped(s, e) == Some(u) then 0 else n
      case ChangePassword(_, _, _) => if Bumped(s, e) == Some(u) then 0 else n
      case EraseMe(_, _, _, _) => if Bumped(s, e) == Some(u) then 0 else n
      case _ => n
  }

  lemma RowAdds(tokens: map<Token, RefreshRow>, k: Token, row: RefreshRow, u: UserId)
    requires k !in tokens && !row.revoked
    ensures |UnrevokedIn(tokens[k := row], u)| == |UnrevokedIn(tokens, u)| + if u == row.user then 1 else 0
  {
    var after := UnrevokedIn(tokens[k := row], u);
    if u == row.user {
      assert after == UnrevokedIn(tokens, u) + {k};
    } else {
      assert after == UnrevokedIn(tokens, u);
    }
  }

  lemma RowRevoked(tokens: map<Token, RefreshRow>, k: Token, u: UserId)
    requires k in tokens && !tokens[k].revoked
    ensures |UnrevokedIn(tokens[k := tokens[k].(revoked := true)], u)|
         == |UnrevokedIn(tokens, u)| - if tokens[k].user == u then 1 else 0
  {
    var after := UnrevokedIn(tokens[k := tokens[k].(revoked := true)], u);
    if tokens[k].user == u {
      assert UnrevokedIn(tokens, u) == after + {k};
    } else {
      assert UnrevokedIn(tokens, u) == after;
    }
  }

  lemma RowsRevoked(tokens: map<Token, RefreshRow>, user: UserId, u: UserId)
    ensures UnrevokedIn(RevokeAll(tokens, user), u) == if u == user then {} else UnrevokedIn(tokens, u)
  {
  }

  lemma SignUpBalance(s: Store, e: Event, u: UserId)
    requires (e.request.SignUp? || e.request.Login?) && Attempt(s, e).Success?
    ensures |Unrevoked(Step(s, e), u)| == Balance(s, e, u, |Unrevoked(s, u)|)
  {
    var user := if e.request.SignUp? then e.request.id else ByEmail(s, e.request.email).value;
    var row := RefreshRow(user, e.now + REFRESH_LIFETIME, false);
    assert Step(s, e).tokens == s.tokens[e.drawn := row];
    RowAdds(s.tokens, e.drawn, row, u);
  }

  lemma RotationBalance(s: Store, e: Event, u: UserId)
    requires e.request.Refresh? && Attempt(s, e).Success?
    ensures |Unrevoked(Step(s, e), u)| == |Unrevoked(s, u)|
  {
    var raw := e.request.raw;
    var spent := s.tokens[raw := s.tokens[raw].(revoked := true)];
    var row := RefreshRow(s.tokens[raw].user, e.now + REFRESH_LIFETIME, false);
    assert Step(s, e).tokens == spent[e.drawn := row];
    RowRevoked(s.tokens, raw, u);
    RowAdds(spent, e.drawn, row, u);
  }

  lemma ResetBalance(s: Store, e: Event, u: UserId)
    requires e.request.LogoutAll? || e.request.ChangePassword? || e.request.EraseMe?
    requires Attempt(s, e).Success?
    ensures |Unrevoked(Step(s, e), u)| == Balance(s, e, u, |Unrevoked(s, u)|)
  {
    var user := e.request.access.value.user;
    assert Step(s, e).tokens == RevokeAll(s.tokens, user);
    RowsRevoked(s.tokens, user, u);
  }

  /** A successful sign-up or login adds one session, a rotation none, a successful logout takes one away, and logout-all,
      a password change and erasure leave none; every other event, suspension included, changes no one's sessions. */
  lemma SessionsBalance(s: Store, e: Event, u: UserId)
    ensures |Unrevoked(Step(s, e), u)| == Balance(s, e, u, |Unrevoked(s, u)|)
  {
    if Attempt(s, e).Success? {
      match e.request
      case SignUp(_, _, _, _) => SignUpBalance(s, e, u);
      case Login(_, _) => SignUpBalance(s, e, u);
      case Refresh(_) => RotationBalance(s, e, u);
      case Logout(body) =>
        if body.Some? && Spends(s, e, body.value) {
          RowRevoked(s.tokens, body.value, u);
        }
      case LogoutAll(_) => ResetBalance(s, e, u);
      case ChangePassword(_, _, _) => ResetBalance(s, e, u);
      case EraseMe(_, _, _, _) => ResetBalance(s, e, u);
      case Suspend(_, _) =>
      case Unsuspend(_, _) =>
      case GrantRole(_, _, _) =>
    }
  }

  function BalanceOver(s: Store, es: seq<Event>, u: UserId, n: int): int
    decreases |es|
  {
    if es == [] then n else BalanceOver(Step(s, es[0]), es[1..], u, Balance(s, es[0], u, n))
  }

  lemma {:induction false} SessionsOverRun(s: Store, es: seq<Event>, u: UserId)
    ensures |Unrevoked(Run(s, es), u)| == BalanceOver(s, es, u, |Unrevoked(s, u)|)
    decreases |es|
  {
    if es != [] {
      SessionsBalance(s, es[0], u);
      SessionsOverRun(Step(s, es[0]), es[1..], u);
    }
  }

  // ----- The requests on the stored rows

  /** A database session over the account and token tables. */
  class AuthSession {
    var accounts: map<UserId, Account>
    var tokens: map<Token, RefreshRow>

    function Snapshot(): Store
      reads this
    {
      Store(accounts, tokens)
    }

    constructor ()
      ensures Snapshot() == Store(map[], map[])
    {
      accounts, tokens := map[], map[];
    }
  }

  /** The outcome of a request is that of its step: nothing is written when it is refused. */
  ghost predicate Commits(step: Result<Outcome>, before: Store, after: Store, r: Result<Option<TokenPair>>) {
    match step
    case Success(o) => r == Success(o.issued) && after == o.store
    case Failure(code) => r == Failure(code) && after == before
  }

  method IssueTokenPair(db: AuthSession, user: UserId, now: int, drawn: Token) returns (pair: TokenPair)
    requires user in db.accounts && drawn !in db.tokens
    modifies db`tokens
    ensures Issue(old(db.Snapshot()), user, now, drawn) == Success(Outcome(db.Snapshot(), Some(pair)))
  {
    pair := TokenPair(Access(user, db.accounts[user].version, now + ACCESS_LIFETIME), drawn);
    db.tokens := db.tokens[drawn := RefreshRow(user, now + REFRESH_LIFETIME, false)];
  }

  method SignUpUser(db: AuthSession, id: UserId, handle: string, email: string, password: string, now: int, drawn: Token)
    returns (r: Result<Option<TokenPair>>)
    modifies db
    ensures Commits(SignUpResult(old(db.Snapshot()), id, handle, email, password, now, drawn),
                    old(db.Snapshot()), db.Snapshot(), r)
  {
    var holders := Holders(db.Snapshot(), handle, email);
    if |holders| > 1 { return Failure(500); }
    if holders != {} { return Failure(409); }
    if id in db.accounts || drawn in db.tokens { return Failure(500); }
    db.accounts := db.accounts[id := Account(handle, email, password, Active, Member, 0)];
    var pair := IssueTokenPair(db, id, now, drawn);
    return Success(Some(pair));
  }

  method LoginUser(db: AuthSession, email: string, password: string, now: int, drawn: Token)
    returns (r: Result<Option<TokenPair>>)
    modifies db
    ensures Commits(LoginResult(old(db.Snapshot()), email, password, now, drawn), old(db.Snapshot()), db.Snapshot(), r)
  {
    var user := ByEmail(db.Snapshot(), email);
    if user.None? || db.accounts[user.value].password != password { return Failure(401); }
    if db.accounts[user.value].standing != Active { return Failure(403); }
    if drawn in db.tokens { return Failure(500); }
    var pair := IssueTokenPair(db, user.value, now, drawn);
    return Success(Some(pair));
  }

  method RotateRefreshToken(db: AuthSession, raw: Token, now: int, drawn: Token) returns (r: Result<Option<TokenPair>>)
    modifies db
    ensures Commits(RefreshResult(old(db.Snapshot()), raw, now, drawn), old(db.Snapshot()), db.Snapshot(), r)
  {
    if raw !in db.tokens || db.tokens[raw].revoked || db.tokens[raw].expiresAt <= now { return Failure(401); }
    var user := db.tokens[raw].user;
    if user !in db.accounts || db.accounts[user].standing != Active { return Failure(401); }
    if drawn in db.tokens { return Failure(500); }
    db.tokens := db.tokens[raw := db.tokens[raw].(revoked := true)];
    var pair := IssueTokenPair(db, user, now, drawn);
    return Success(Some(pair));
  }

  method RevokeRefreshToken(db: AuthSession, raw: Token) returns (found: bool)
    modifies db`tokens
    ensures found <==> raw in old(db.tokens) && !old(db.tokens)[raw].revoked
    ensures db.Snapshot() == LogoutResult(old(db.Snapshot()), Some(raw))
  {
    if raw !in db.tokens || db.tokens[raw].revoked {
      return false;
    }
    db.tokens := db.tokens[raw := db.tokens[raw].(revoked := true)];
    return true;
  }

  method RevokeAllRefreshTokens(db: AuthSession, user: UserId)
    modifies db`tokens
    ensures db.tokens == RevokeAll(old(db.tokens), user)
  {
    ghost var before := db.tokens;
    var rest := set k | k in db.tokens && db.tokens[k].user == user && !db.tokens[k].revoked;
    while rest != {}
      invariant rest <= db.tokens.Keys && db.tokens.Keys == before.Keys
      invariant forall k :: k in rest ==> db.tokens[k] == before[k] && before[k].user == user
      invariant forall k :: k in before && k !in rest ==> db.tokens[k] == RevokeAll(before, user)[k]
      decreases rest
    {
      var k :| k in rest;
      db.tokens := db.tokens[k := db.tokens[k].(revoked := true)];
      rest := rest - {k};
    }
  }

  method LogoutEverywhere(db: AuthSession, access: Option<Access>, now: int) returns (r: Result<Option<TokenPair>>)
    modifies db
    ensures Commits(Quietly(LogoutAllResult(old(db.Snapshot()), access, now)), old(db.Snapshot()), db.Snapshot(), r)
  {
    var me := Authenticate(db.Snapshot(), access, now);
    if me.Failure? { return Failure(me.code); }
    var account := db.accounts[me.value];
    db.accounts := db.accounts[me.value := account.(version := account.version + 1)];
    RevokeAllRefreshTokens(db, me.value);
    return Success(None);
  }

  method ChangeUserPassword(db: AuthSession, access: Option<Access>, oldPassword: string, newPassword: string, now: int)
    returns (r: Result<Option<TokenPair>>)
    modifies db
    ensures Commits(Quietly(ChangePasswordResult(old(db.Snapshot()), access, oldPassword, newPassword, now)),
                    old(db.Snapshot()), db.Snapshot(), r)
  {
    var me := Authenticate(db.Snapshot(), access, now);
    if me.Failure? { return Failure(me.code); }
    var account := db.accounts[me.value];
    if account.password != oldPassword { return Failure(401); }
    db.accounts := db.accounts[me.value := account.(password := newPassword, version := account.version + 1)];
    RevokeAllRefreshTokens(db, me.value);
    return Success(None);
  }

  method EraseAccount(db: AuthSession, access: Option<Access>, password: string, suffix: string, secret: string, now: int)
    returns (r: Result<Option<TokenPair>>)
    modifies db
    ensures Commits(Quietly(EraseResult(old(db.Snapshot()), access, password, suffix, secret, now)),
                    old(db.Snapshot()), db.Snapshot(), r)
  {
    var me := Authenticate(db.Snapshot(), access, now);
    if me.Failure? { return Failure(me.code); }
    var account := db.accounts[me.value];
    if account.password != password { return Failure(401); }
    var handle, email := "deleted_" + suffix, "deleted_" + suffix + "@invalid.local";
    if Taken(Store(db.accounts - {me.value}, db.tokens), handle, email) { return Failure(500); }
    db.accounts := db.accounts[me.value :=
      account.(handle := handle, email := email, password := secret, version := account.version + 1)];
    RevokeAllRefreshTokens(db, me.value);
    return Success(None);
  }

  method SuspendUser(db: AuthSession, access: Option<Access>, target: UserId, now: int)
    returns (r: Result<Option<TokenPair>>)
    modifies db
    ensures Commits(Quietly(SuspendResult(old(db.Snapshot()), access, target, now)), old(db.Snapshot()), db.Snapshot(), r)
  {
    var me := Authenticate(db.Snapshot(), access, now);
    if me.Failure? { return Failure(me.code); }
    if !db.accounts[me.value].role.MaySuspend() { return Failure(403); }
    if target !in db.accounts { return Failure(404); }
    if target == me.value { return Failure(400); }
    var account := db.accounts[target];
    db.accounts := db.accounts[target := account.(standing := Suspended, version := account.version + 1)];
    return Success(None);
  }

  method UnsuspendUser(db: AuthSession, access: Option<Access>, target: UserId, now: int)
    returns (r: Result<Option<TokenPair>>)
    modifies db
    ensures Commits(Quietly(UnsuspendResult(old(db.Snapshot()), access, target, now)), old(db.Snapshot()), db.Snapshot(), r)
  {
    var me := Authenticate(db.Snapshot(), access, now);
    if me.Failure? { return Failure(me.code); }
    if !db.accounts[me.value].role.MaySuspend() { return Failure(403); }
    if target !in db.accounts { return Failure(404); }
    db.accounts := db.accounts[target := db.accounts[target].(standing := Active)];
    return Success(None);
  }

  method GrantUserRole(db: AuthSession, access: Option<Access>, target: UserId, role: Role, now: int)
    returns (r: Result<Option<TokenPair>>)
    modifies db
    ensures Commits(Quietly(GrantRoleResult(old(db.Snapshot()), access, target, role, now)),
                    old(db.Snapshot()), db.Snapshot(), r)
  {
    var me := Authenticate(db.Snapshot(), access, now);
    if me.Failure? { return Failure(me.code); }
    if !db.accounts[me.value].role.Admin? { return Failure(403); }
    if target !in db.accounts { return Failure(404); }
    db.accounts := db.accounts[target := db.accounts[target].(role := role)];
    return Success(None);
  }

  /** Every request, on the stored rows. */
  method Execute(db: AuthSession, e: Event) returns (r: Result<Option<TokenPair>>)
    modifies db
    ensures Commits(Attempt(old(db.Snapshot()), e), old(db.Snapshot()), db.Snapshot(), r)
  {
    match e.request
    case SignUp(id, handle, email, password) => r := SignUpUser(db, id, handle, email, password, e.now, e.drawn);
    case Login(email, password) => r := LoginUser(db, email, password, e.now, e.drawn);
    case Refresh(raw) => r := RotateRefreshToken(db, raw, e.now, e.drawn);
    case Logout(body) =>
      r := Success(None);
      if body.Some? {
        var found := RevokeRefreshToken(db, body.value);
      }
    case LogoutAll(access) => r := LogoutEverywhere(db, access, e.now);
    case ChangePassword(access, old_, new_) => r := ChangeUserPassword(db, access, old_, new_, e.now);
    case EraseMe(access, password, suffix, secret) => r := EraseAccount(db, access, password, suffix, secret, e.now);
    case Suspend(access, target) => r := SuspendUser(db, access, target, e.now);
    case Unsuspend(access, target) => r := UnsuspendUser(db, access, target, e.now);
    case GrantRole(access, target, role) => r := GrantUserRole(db, access, target, role, e.now);
  }

  /** A sequence of requests leaves the rows in the store of its run. */
  method ExecuteAll(db: AuthSession, es: seq<Event>)
    modifies db
    ensures db.Snapshot() == Run(old(db.Snapshot()), es)
  {
    ghost var start := db.Snapshot();
    for i := 0 to |es|
      invariant Run(start, es) == Run(db.Snapshot(), es[i..])
    {
      assert es[i..][1..] == es[i + 1..];
      var r := Execute(db, es[i]);
    }
  }
}
