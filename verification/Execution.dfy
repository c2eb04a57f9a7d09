/** Runs on the stored rows: every event is executed by the method that updates the tables in place. */
module Execution {
  import opened Options
  import opened SocialModel
  import opened SocialRuns
  import Database

  type Session = Database.Session

  method SignUpUser(db: Session, u: UserId, isPrivate: bool) returns (r: Result<()>)
    modifies db
    ensures Database.Commits(Attempt(old(db.Snapshot()), SignUp(u, isPrivate)), old(db.Snapshot()), db.Snapshot(), r)
  {
    if u in db.users { return Failure(409); }
    db.users := db.users[u := UserRow(isPrivate)];
    return Success(());
  }

  method UpdatePrivacy(db: Session, u: UserId, isPrivate: bool) returns (r: Result<()>)
    modifies db
    ensures Database.Commits(Attempt(old(db.Snapshot()), SetPrivate(u, isPrivate)), old(db.Snapshot()), db.Snapshot(), r)
  {
    if u !in db.users { return Failure(401); }
    db.users := db.users[u := UserRow(isPrivate)];
    return Success(());
  }

  /** The events between two users, and likes. */
  method ExecuteSocial(db: Session, e: Event) returns (r: Result<()>)
    requires e.Follow? || e.Unfollow? || e.Block? || e.Unblock? || e.Like? || e.Unlike?
    modifies db
    ensures Database.Commits(Attempt(old(db.Snapshot()), e), old(db.Snapshot()), db.Snapshot(), r)
  {
    match e
    case Follow(me, other) => r := Database.FollowUser(db, me, other);
    case Unfollow(me, other) => r := Database.UnfollowUser(db, me, other);
    case Block(me, other) => r := Database.BlockUser(db, me, other);
    case Unblock(me, other) => r := Database.UnblockUser(db, me, other);
    case Like(me, p) => r := Database.LikePost(db, me, p);
    case Unlike(me, p) => r := Database.UnlikePost(db, me, p);
  }

  /** Every event of a run, on the stored rows. */
  method Execute(db: Session, e: Event) returns (r: Result<()>)
    modifies db
    ensures Database.Commits(Attempt(old(db.Snapshot()), e), old(db.Snapshot()), db.Snapshot(), r)
  {
    match e
    case SignUp(u, isPrivate) => r := SignUpUser(db, u, isPrivate);
    case SetPrivate(u, isPrivate) => r := UpdatePrivacy(db, u, isPrivate);
    case Create(me, id, now, req) => r := Database.CreatePost(db, me, id, now, req);
    case Delete(me, p) => r := Database.DeletePost(db, me, p);
    case Hide(p) => r := Database.HidePost(db, p);
    case Erase(me) => Database.ErasePosts(db, me); r := Success(());
    case WriteLabel(p, kind, reason) => r := Database.WriteLabel(db, p, kind, reason);
    case RunTask(task, p) => r := Database.ExecTask(db, task, p);
    case Fail(p) => Database.MarkFailed(db, p); r := Success(());
    case _ => r := ExecuteSocial(db, e);
  }

  /** A sequence of events leaves the stored rows in the store of its run. */
  method ExecuteAll(db: Session, es: seq<Event>)
    modifies db
    ensures db.Snapshot() == Run(old(db.Snapshot()), es)
  {
    ghost var start := db.Snapshot();
    for i := 0 to |es|
      invariant db.Snapshot() == Run(start, es[..i])
    {
      RunSnoc(start, es[..i], es[i]);
      assert es[..i + 1] == es[..i] + [es[i]];
      var r := Execute(db, es[i]);
    }
    assert es[..|es|] == es;
  }
}
