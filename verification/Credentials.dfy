/** Who gets a session, and who may end or change one: every session request on the plain columns. */
module Credentials {
  import opened Options
  import opened Sessions

  /** The token belongs to `u` and is accepted now. */
  predicate SpeaksFor(s: Store, access: Option<Access>, now: int, u: UserId) {
    && access.Some? && access.value.user == u && now < access.value.expiresAt
    && u in s.accounts && s.accounts[u].standing == Active && s.accounts[u].version == access.value.version
  }

  /** 403 for a suspended account with an unexpired token, 401 for anything else that is not accepted. */
  lemma AuthenticateAnswer(s: Store, access: Option<Access>, now: int)
    ensures var r := Authenticate(s, access, now);
      && (forall u: UserId :: r == Success(u) <==> SpeaksFor(s, access, now, u))
      && (r == Failure(403) <==>
           && access.Some? && now < access.value.expiresAt
           && access.value.user in s.accounts && s.accounts[access.value.user].standing == Suspended)
      && (r.Failure? ==> r.code == 401 || r.code == 403)
  {
  }

  // ----- One account per handle and address

  ghost predicate UniqueAccounts(s: Store) {
    forall u, v :: u in s.accounts && v in s.accounts && SameName(s.accounts[u], s.accounts[v]) ==> u == v
  }

  predicate SameName(a: Account, b: Account) {
    a.handle == b.handle || a.email == b.email
  }

  lemma UniqueKept(s: Store, e: Event)
    requires UniqueAccounts(s)
    ensures UniqueAccounts(Step(s, e))
  {
    if Attempt(s, e).Success? {
      match e.request
      case SignUp(id, handle, email, password) =>
        SignUpAnswer(s, e);
      case EraseMe(access, password, suffix, secret) =>
        ErasedName(s, e);
      case _ =>
    }
  }

  lemma ErasedName(s: Store, e: Event)
    requires UniqueAccounts(s) && e.request.EraseMe? && Attempt(s, e).Success?
    ensures UniqueAccounts(Step(s, e))
  {
    var me := e.request.access.value.user;
    var handle, email := "deleted_" + e.request.suffix, "deleted_" + e.request.suffix + "@invalid.local";
    assert Holders(s.(accounts := s.accounts - {me}), handle, email) == {};
    forall u | u in s.accounts && u != me
      ensures s.accounts[u].handle != handle && s.accounts[u].email != email
    {
      assert u !in Holders(s.(accounts := s.accounts - {me}), handle, email);
    }
  }

  /** No run brings two accounts with one handle or one address. */
  lemma {:induction false} UniqueOverRun(s: Store, es: seq<Event>)
    requires UniqueAccounts(s)
    ensures UniqueAccounts(Run(s, es))
    decreases |es|
  {
    if es != [] {
      UniqueKept(s, es[0]);
      UniqueOverRun(Step(s, es[0]), es[1..]);
    }
  }

  const NOBODY := Store(map[], map[])

  // ----- Getting a session

  /** The pair is for `u`: an access token of the current version for thirty minutes, and a new unrevoked refresh token for
      fourteen days; no other row of the tokens changes. */
  ghost predicate SessionFor(before: map<Token, RefreshRow>, after: Store, u: UserId, now: int, drawn: Token,
                             issued: Option<TokenPair>) {
    && u in after.accounts && drawn !in before
    && issued == Some(TokenPair(Access(u, after.accounts[u].version, now + 1800), drawn))
    && after.tokens == before[drawn := RefreshRow(u, now + 1209600, false)]
  }

  lemma SignUpAnswer(s: Store, e: Event)
    requires e.request.SignUp?
    ensures var (r, q) := (Attempt(s, e), e.request);
      && (r.Success? <==>
           && (forall u :: u in s.accounts ==> s.accounts[u].handle != q.handle && s.accounts[u].email != q.email)
           && q.id !in s.accounts && e.drawn !in s.tokens)
      && (r == Failure(409) ==> exists u :: u in s.accounts && SameName(s.accounts[u], Account(q.handle, q.email, "", Active, Member, 0)))
      && (r.Failure? ==> r.code == 409 || r.code == 500)
      && (r.Success? ==>
           && r.value.store.accounts == s.accounts[q.id := Account(q.handle, q.email, q.password, Active, Member, 0)]
           && SessionFor(s.tokens, r.value.store, q.id, e.now, e.drawn, r.value.issued))
  {
    var q := e.request;
    var holders := Holders(s, q.handle, q.email);
    if holders != {} {
      var u :| u in holders;
      assert SameName(s.accounts[u], Account(q.handle, q.email, "", Active, Member, 0));
    } else {
      forall u | u in s.accounts
        ensures s.accounts[u].handle != q.handle && s.accounts[u].email != q.email
      {
        assert u !in holders;
      }
    }
  }

  lemma SetOfTwo<T>(all: set<T>, a: T, b: T)
    requires a in all && b in all && a != b
    ensures |all| > 1
  {
    assert all == {a} + (all - {a}) && b in all - {a};
  }

  lemma SetOfOne<T>(all: set<T>, a: T)
    requires a in all && forall b :: b in all ==> b == a
    ensures |all| == 1
  {
    assert all == {a};
  }

  /** A name of one account with the address of another is an unhandled error, not a conflict. */
  lemma TwoRivals(s: Store, e: Event, u: UserId)
    requires e.request.SignUp? && u in s.accounts
    requires s.accounts[u].handle == e.request.handle || s.accounts[u].email == e.request.email
    ensures Attempt(s, e) == Failure(409) <==>
      forall v :: v in s.accounts && v != u ==> s.accounts[v].handle != e.request.handle && s.accounts[v].email != e.request.email
  {
    var q := e.request;
    var holders := Holders(s, q.handle, q.email);
    assert u in holders;
    if exists v :: v in holders && v != u {
      var v :| v in holders && v != u;
      SetOfTwo(holders, u, v);
    } else {
      SetOfOne(holders, u);
      forall v | v in s.accounts && v != u
        ensures s.accounts[v].handle != q.handle && s.accounts[v].email != q.email
      {
        assert v !in holders;
      }
    }
  }

  /** The account with this address and this password. */
  predicate Knows(s: Store, u: UserId, email: string, password: string) {
    u in s.accounts && s.accounts[u].email == email && s.accounts[u].password == password
  }

  lemma LookupFinds(s: Store, u: UserId)
    requires UniqueAccounts(s) && u in s.accounts
    ensures ByEmail(s, s.accounts[u].email) == Some(u)
  {
    var v := ByEmail(s, s.accounts[u].email);
    assert v.Some? ==> SameName(s.accounts[u], s.accounts[v.value]);
  }

  /** A login succeeds if and only if some active account has the address and the password, and the drawn token is new. The
      session is for that account, and nothing else changes. */
  lemma LoginAnswer(s: Store, e: Event)
    requires e.request.Login? && UniqueAccounts(s)
    ensures var (r, email, password) := (Attempt(s, e), e.request.email, e.request.password);
      && (r.Success? <==>
           (exists u :: Knows(s, u, email, password) && s.accounts[u].standing == Active) && e.drawn !in s.tokens)
      && (r == Failure(401) <==> forall u :: !Knows(s, u, email, password))
      && (r == Failure(403) <==> exists u :: Knows(s, u, email, password) && s.accounts[u].standing == Suspended)
      && (forall u :: r.Success? && Knows(s, u, email, password) ==>
           r.value.store.accounts == s.accounts && SessionFor(s.tokens, r.value.store, u, e.now, e.drawn, r.value.issued))
  {
    var email := e.request.email;
    forall u | u in s.accounts && s.accounts[u].email == email
      ensures ByEmail(s, email) == Some(u)
    {
      LookupFinds(s, u);
    }
    var v := ByEmail(s, email);
    if v.Some? {
      assert Knows(s, v.value, email, s.accounts[v.value].password);
    }
  }

  /** A rotation succeeds if and only if the token is stored, unrevoked and unexpired, its user active, and the drawn token
      new. It spends the token; the session is for the same user. */
  lemma RefreshAnswer(s: Store, e: Event)
    requires e.request.Refresh?
    ensures var (r, raw) := (Attempt(s, e), e.request.raw);
      && (r.Success? <==> Rotatable(s, raw, e.now) && e.drawn !in s.tokens)
      && (r == Failure(401) <==> !Rotatable(s, raw, e.now))
      && (r.Success? ==>
           && r.value.store.accounts == s.accounts
           && SessionFor(s.tokens[raw := s.tokens[raw].(revoked := true)], r.value.store, s.tokens[raw].user, e.now, e.drawn,
                         r.value.issued))
  {
  }

  predicate Rotatable(s: Store, raw: Token, now: int) {
    && raw in s.tokens && !s.tokens[raw].revoked && now < s.tokens[raw].expiresAt
    && s.tokens[raw].user in s.accounts && s.accounts[s.tokens[raw].user].standing == Active
  }

  /** From any store, and so in any run: a pair is only issued to who signs up, to who gives the stored password of an active
      account, and to who presents a refresh token that is neither revoked nor expired, of the same active user. */
  lemma IssuedTo(s: Store, e: Event)
    requires Attempt(s, e).Success? && Attempt(s, e).value.issued.Some?
    ensures var u := Attempt(s, e).value.issued.value.access.user;
      && u in Step(s, e).accounts && Step(s, e).accounts[u].standing == Active
      && match e.request
         case SignUp(id, _, _, password) => u == id && id !in s.accounts && Step(s, e).accounts[u].password == password
         case Login(email, password) => Knows(s, u, email, password) && s.accounts[u].standing == Active
         case Refresh(raw) => Rotatable(s, raw, e.now) && s.tokens[raw].user == u
         case _ => false
  {
  }

  /** Event `i` of the run issues the refresh token `k` to `u`. */
  ghost predicate IssuedAt(s: Store, es: seq<Event>, i: nat, k: Token, u: UserId) {
    i < |es| && var r := Attempt(Run(s, es[..i]), es[i]);
    r.Success? && r.value.issued.Some? && r.value.issued.value.refresh == k && r.value.issued.value.access.user == u
  }

  lemma RunSnoc(s: Store, es: seq<Event>, e: Event)
    ensures Run(s, es + [e]) == Step(Run(s, es), e)
  {
    BumpsAdd(s, es, [e], 0);
    assert Run(Run(s, es), [e]) == Run(Step(Run(s, es), e), [e][1..]);
  }

  lemma StepTokens(s: Store, e: Event, k: Token)
    requires k in Step(s, e).tokens
    ensures k in s.tokens ==> Step(s, e).tokens[k].user == s.tokens[k].user
    ensures k !in s.tokens ==>
      && Attempt(s, e).Success? && Attempt(s, e).value.issued.Some?
      && Attempt(s, e).value.issued.value.refresh == k
      && Attempt(s, e).value.issued.value.access.user == Step(s, e).tokens[k].user
  {
  }

  /** Every stored refresh token was issued by an event of the run, to its user. */
  lemma {:induction false} TokenOrigin(es: seq<Event>, k: Token)
    requires k in Run(NOBODY, es).tokens
    ensures exists i: nat :: IssuedAt(NOBODY, es, i, k, Run(NOBODY, es).tokens[k].user)
    decreases |es|
  {
    if es != [] {
      var init, last := es[..|es| - 1], es[|es| - 1];
      var s := Run(NOBODY, init);
      assert es == init + [last];
      RunSnoc(NOBODY, init, last);
      StepTokens(s, last, k);
      if k in s.tokens {
        TokenOrigin(init, k);
        var i: nat :| IssuedAt(NOBODY, init, i, k, s.tokens[k].user);
        assert es[..i] == init[..i];
        assert IssuedAt(NOBODY, es, i, k, s.tokens[k].user);
      } else {
        assert es[..|init|] == init;
        assert IssuedAt(NOBODY, es, |init|, k, Run(NOBODY, es).tokens[k].user);
      }
    }
  }

  // ----- Ending sessions and changing accounts

  /** `b` has the accounts of `a` but for `u`, and every token of `u` is revoked; the other tokens stay. */
  ghost predicate LoggedOut(a: Store, b: Store, u: UserId) {
    && a.accounts.Keys == b.accounts.Keys && (forall v :: v in a.accounts && v != u ==> b.accounts[v] == a.accounts[v])
    && a.tokens.Keys == b.tokens.Keys
    && forall k :: k in a.tokens ==>
         b.tokens[k] == RefreshRow(a.tokens[k].user, a.tokens[k].expiresAt, a.tokens[k].revoked || a.tokens[k].user == u)
  }

  lemma LogoutAnswer(s: Store, e: Event)
    requires e.request.Logout?
    ensures var r := Attempt(s, e);
      && r.Success? && r.value.issued.None? && r.value.store.accounts == s.accounts
      && r.value.store.tokens.Keys == s.tokens.Keys
      && forall k :: k in s.tokens ==>
           r.value.store.tokens[k] == s.tokens[k].(revoked := s.tokens[k].revoked || e.request.body == Some(k))
  {
  }

  lemma LogoutAllAnswer(s: Store, e: Event)
    requires e.request.LogoutAll?
    ensures var r := Attempt(s, e);
      && (r.Success? <==> exists u :: SpeaksFor(s, e.request.access, e.now, u))
      && (forall u :: SpeaksFor(s, e.request.access, e.now, u) ==>
           && LoggedOut(s, r.value.store, u)
           && r.value.store.accounts[u] == s.accounts[u].(version := s.accounts[u].version + 1))
  {
    AuthenticateAnswer(s, e.request.access, e.now);
  }

  lemma ChangePasswordAnswer(s: Store, e: Event)
    requires e.request.ChangePassword?
    ensures var (r, q) := (Attempt(s, e), e.request);
      && (r.Success? <==> exists u :: SpeaksFor(s, q.access, e.now, u) && s.accounts[u].password == q.oldPassword)
      && (forall u :: SpeaksFor(s, q.access, e.now, u) && s.accounts[u].password != q.oldPassword ==> r == Failure(401))
      && (forall u :: SpeaksFor(s, q.access, e.now, u) && r.Success? ==>
           && LoggedOut(s, r.value.store, u)
           && r.value.store.accounts[u] == s.accounts[u].(password := q.newPassword, version := s.accounts[u].version + 1))
  {
    AuthenticateAnswer(s, e.request.access, e.now);
  }

  /** No other account has the handle or the address that the erased one would get. */
  predicate SuffixFree(s: Store, u: UserId, suffix: string) {
    forall v :: v in s.accounts && v != u ==>
      s.accounts[v].handle != "deleted_" + suffix && s.accounts[v].email != "deleted_" + suffix + "@invalid.local"
  }

  lemma EraseEffect(s: Store, e: Event, u: UserId)
    requires e.request.EraseMe? && SpeaksFor(s, e.request.access, e.now, u)
    ensures var (r, q) := (Attempt(s, e), e.request);
      && (r.Success? <==> s.accounts[u].password == q.password && SuffixFree(s, u, q.suffix))
      && (s.accounts[u].password != q.password ==> r == Failure(401))
      && (s.accounts[u].password == q.password && !SuffixFree(s, u, q.suffix) ==> r == Failure(500))
      && (r.Success? ==>
           && LoggedOut(s, r.value.store, u)
           && r.value.store.accounts[u] ==
                s.accounts[u].(handle := "deleted_" + q.suffix, email := "deleted_" + q.suffix + "@invalid.local",
                               password := q.secret, version := s.accounts[u].version + 1))
  {
    AuthenticateAnswer(s, e.request.access, e.now);
    NobodyElse(s, u, e.request.suffix);
  }

  lemma EraseAnswer(s: Store, e: Event)
    requires e.request.EraseMe?
    ensures Attempt(s, e).Success? <==>
      exists u :: SpeaksFor(s, e.request.access, e.now, u) && s.accounts[u].password == e.request.password
                  && SuffixFree(s, u, e.request.suffix)
  {
    AuthenticateAnswer(s, e.request.access, e.now);
    if u :| SpeaksFor(s, e.request.access, e.now, u) {
      EraseEffect(s, e, u);
    }
  }

  lemma NobodyElse(s: Store, u: UserId, suffix: string)
    requires u in s.accounts
    ensures SuffixFree(s, u, suffix) <==>
      !Taken(s.(accounts := s.accounts - {u}), "deleted_" + suffix, "deleted_" + suffix + "@invalid.local")
  {
    var others := Holders(s.(accounts := s.accounts - {u}), "deleted_" + suffix, "deleted_" + suffix + "@invalid.local");
    forall v | v in s.accounts && v != u
      ensures v in others <==>
        s.accounts[v].handle == "deleted_" + suffix || s.accounts[v].email == "deleted_" + suffix + "@invalid.local"
    {
    }
  }

  /** `b` differs from `a` in the account of `u` alone. */
  ghost predicate OnlyAccount(a: Store, b: Store, u: UserId) {
    && a.tokens == b.tokens && a.accounts.Keys == b.accounts.Keys
    && forall v :: v in a.accounts && v != u ==> b.accounts[v] == a.accounts[v]
  }

  /** Suspending takes a moderator or an admin, an account that exists and is not the actor's own. Reinstating takes the
      same role; granting a role takes an admin. Tokens stay. */
  lemma ModerationAnswer(s: Store, e: Event, me: UserId)
    requires e.request.Suspend? || e.request.Unsuspend? || e.request.GrantRole?
    requires SpeaksFor(s, e.request.access, e.now, me)
    ensures var (r, q, role) := (Attempt(s, e), e.request, s.accounts[me].role);
      && (r == Failure(403) <==> role == Member || (q.GrantRole? && role == Moderator))
      && (r == Failure(404) <==> r != Failure(403) && q.target !in s.accounts)
      && (r == Failure(400) <==> q.Suspend? && role != Member && q.target == me)
      && (r.Success? <==>
           && role != Member && (q.GrantRole? ==> role == Admin)
           && q.target in s.accounts && (q.Suspend? ==> q.target != me))
      && (r.Success? ==> OnlyAccount(s, r.value.store, q.target) && r.value.issued.None?)
      && (r.Success? && q.Suspend? ==>
           r.value.store.accounts[q.target]
             == s.accounts[q.target].(standing := Suspended, version := s.accounts[q.target].version + 1))
      && (r.Success? && q.Unsuspend? ==> r.value.store.accounts[q.target] == s.accounts[q.target].(standing := Active))
      && (r.Success? && q.GrantRole? ==> r.value.store.accounts[q.target] == s.accounts[q.target].(role := q.role))
  {
    AuthenticateAnswer(s, e.request.access, e.now);
  }

  /** Without an accepted token none of them does anything. */
  lemma StrangersRefused(s: Store, e: Event)
    requires !e.request.SignUp? && !e.request.Login? && !e.request.Refresh? && !e.request.Logout?
    requires forall u :: !SpeaksFor(s, e.request.access, e.now, u)
    ensures Attempt(s, e).Failure? && (Attempt(s, e).code == 401 || Attempt(s, e).code == 403)
  {
    AuthenticateAnswer(s, e.request.access, e.now);
  }

  /** Who can end every session of `u` at once: `u` with an accepted token, giving the stored password to change it or to
      erase the account, and a moderator or admin other than `u`. */
  lemma BumpCause(s: Store, e: Event, u: UserId)
    ensures Bumped(s, e) == Some(u) <==>
      match e.request
      case LogoutAll(access) => SpeaksFor(s, access, e.now, u)
      case ChangePassword(access, old_, _) => SpeaksFor(s, access, e.now, u) && s.accounts[u].password == old_
      case EraseMe(access, password, suffix, _) =>
        SpeaksFor(s, access, e.now, u) && s.accounts[u].password == password && SuffixFree(s, u, suffix)
      case Suspend(access, target) =>
        target == u && u in s.accounts
        && exists me :: SpeaksFor(s, access, e.now, me) && s.accounts[me].role != Member && me != u
      case _ => false
  {
    match e.request
    case LogoutAll(access) => LogoutAllAnswer(s, e);
    case ChangePassword(access, _, _) => ChangePasswordAnswer(s, e);
    case EraseMe(access, _, _, _) => EraseAnswer(s, e);
    case Suspend(access, target) =>
      AuthenticateAnswer(s, access, e.now);
      if exists me :: SpeaksFor(s, access, e.now, me) {
        var me :| SpeaksFor(s, access, e.now, me);
        ModerationAnswer(s, e, me);
      }
    case _ =>
  }

  // ----- The password decides

  /** The event rewrites the password or the address of `u`. */
  predicate Rewrites(s: Store, e: Event, u: UserId) {
    (e.request.ChangePassword? || e.request.EraseMe?) && Bumped(s, e) == Some(u)
  }

  lemma LoginNameStays(s: Store, e: Event, u: UserId)
    requires u in s.accounts && !Rewrites(s, e, u)
    ensures var next := Step(s, e);
      u in next.accounts && next.accounts[u].email == s.accounts[u].email && next.accounts[u].password == s.accounts[u].password
  {
  }

  predicate NeverRewrites(s: Store, es: seq<Event>, u: UserId)
    decreases |es|
  {
    es == [] || (!Rewrites(s, es[0], u) && NeverRewrites(Step(s, es[0]), es[1..], u))
  }

  lemma {:induction false} LoginNameStaysOver(s: Store, es: seq<Event>, u: UserId)
    requires u in s.accounts && NeverRewrites(s, es, u)
    ensures var last := Run(s, es);
      u in last.accounts && last.accounts[u].email == s.accounts[u].email && last.accounts[u].password == s.accounts[u].password
    decreases |es|
  {
    if es != [] {
      LoginNameStays(s, es[0], u);
      LoginNameStaysOver(Step(s, es[0]), es[1..], u);
    }
  }

  /** After a committed password change, and whatever follows short of another change or the erasure of the account: a login
      with the account's address succeeds with the new password alone, while the account is active. */
  lemma NewPasswordDecides(before: seq<Event>, change: Event, after: seq<Event>, u: UserId, login: Event)
    requires var s := Run(NOBODY, before);
      && change.request.ChangePassword? && Bumped(s, change) == Some(u)
      && NeverRewrites(Step(s, change), after, u)
      && login.request.Login? && u in s.accounts && login.request.email == s.accounts[u].email
    ensures var last := Run(Step(Run(NOBODY, before), change), after);
      && u in last.accounts
      && (Attempt(last, login).Success? <==>
           && login.request.password == change.request.newPassword
           && last.accounts[u].standing == Active && login.drawn !in last.tokens)
      && (login.request.password != change.request.newPassword ==> Attempt(last, login) == Failure(401))
  {
    var s := Run(NOBODY, before);
    var changed := Step(s, change);
    var last := Run(changed, after);
    UniqueOverRun(NOBODY, before);
    UniqueKept(s, change);
    UniqueOverRun(changed, after);
    BumpCause(s, change, u);
    ChangePasswordAnswer(s, change);
    LoginNameStaysOver(changed, after, u);
    LoginAnswer(last, login);
    forall v | Knows(last, v, login.request.email, login.request.password)
      ensures v == u
    {
      assert SameName(last.accounts[u], last.accounts[v]);
    }
    if login.request.password == change.request.newPassword {
      assert Knows(last, u, login.request.email, login.request.password);
    }
  }
}
