/**
 What one call of the bootstrap answers and leaves behind, told from the user table and the
 directory it found, without the points of the protocol.
 */
module BootstrapRules {
  import opened Bootstrap
  import opened Convergence

  // ----- what is refused -----

  predicate Own(f: File, uid: nat) {
    f.owner == uid && (f.mode == 0x100 || f.mode == 0x180)
  }

  /** This name under another id, or this id with another name or workspace. */
  ghost predicate Conflict(users: map<string, User>, a: Args) {
    if a.publicId in users then users[a.publicId].username != a.username || users[a.publicId].workspace != a.workspace
    else exists id :: id in users && users[id].username == a.username
  }

  /** With a row, a file that is not ours; without one, a credential, or a staged file that is empty or not ours. */
  ghost predicate InTheWay(users: map<string, User>, d: Disk, a: Args, n: Entry) {
    && n in Visible(d) && Visible(d)[n] < |d.files|
    && var f := d.files[Visible(d)[n]];
    if a.publicId in users then !Own(f, a.uid) else n == Final || !Own(f, a.uid) || f.text == ""
  }

  ghost predicate Refused(users: map<string, User>, d: Disk, a: Args) {
    !a.accepted || Conflict(users, a) || exists n :: InTheWay(users, d, a, n)
  }

  lemma CommittedRefusedIff(hash: Hash, y: Sys, a: Args)
    requires Durable(hash, y, a.publicId) && a.accepted && a.publicId in y.users && !Conflict(y.users, a)
    ensures var pc := Decide(hash, y.users, y.disk, a);
            if Refused(y.users, y.disk, a) then pc == Finished(false) else Good(pc) && !pc.Check? && !pc.Finished?
  {
    var d := y.disk;
    AllBacked(hash, y, a.publicId);
    assert Sane(hash, y.users, d, a.publicId, Visible(d));
    StagedAtMostOne(d);
    assert forall n :: n in Visible(d) ==> n == Final || n in StagedEntries(d);
    var m :| m in Visible(d);
    assert m == Final || StagedEntries(d) == {m};
    forall n | n in Visible(d)
      ensures InTheWay(y.users, d, a, n) <==> !Matches(d, n, a.uid, hash, y.users[a.publicId].tokenHash)
    {
      assert Bound(d, n);
    }
  }

  lemma NewRefusedIff(hash: Hash, y: Sys, a: Args)
    requires Durable(hash, y, a.publicId) && a.accepted && a.publicId !in y.users && !Conflict(y.users, a)
    ensures var pc := Decide(hash, y.users, y.disk, a);
            if Refused(y.users, y.disk, a) then pc == Finished(false) else Good(pc) && !pc.Check? && !pc.Finished?
  {
    var d := y.disk;
    assert Sane(hash, y.users, d, a.publicId, Visible(d));
    StagedAtMostOne(d);
    assert forall n :: n in Visible(d) ==> n == Final || n in StagedEntries(d);
    forall n | n in Visible(d)
      ensures InTheWay(y.users, d, a, n) <==> n == Final || !Readable(d, n, a.uid)
    {
      assert Bound(d, n);
    }
  }

  /** The first reads refuse exactly what is to be refused. */
  lemma RefusedIff(hash: Hash, y: Sys, a: Args)
    requires Durable(hash, y, a.publicId)
    ensures var pc := Decide(hash, y.users, y.disk, a);
            if Refused(y.users, y.disk, a) then pc == Finished(false) else Good(pc) && !pc.Check? && !pc.Finished?
  {
    if a.accepted && !Conflict(y.users, a) {
      if a.publicId in y.users {
        CommittedRefusedIff(hash, y, a);
      } else {
        NewRefusedIff(hash, y, a);
      }
    }
  }

  // ----- what is left behind -----

  predicate Requested(users: map<string, User>, a: Args) {
    a.publicId in users && users[a.publicId].username == a.username && users[a.publicId].workspace == a.workspace
  }

  /** The table before, with the row asked for. */
  function Added(hash: Hash, users: map<string, User>, a: Args): map<string, User> {
    users[a.publicId := User(a.username, hash(a.token), a.workspace)]
  }

  /** The request is for an instance that has neither a row nor its name taken. */
  ghost predicate IsNew(users: map<string, User>, a: Args) {
    a.accepted && a.publicId !in users && !NameHeldElsewhere(users, a)
  }

  predicate IsRetry(users: map<string, User>, a: Args) {
    a.accepted && Requested(users, a)
  }

  predicate Made(d: Disk, i: nat, a: Args) {
    i < |d.files| && Own(d.files[i], a.uid) && d.files[i].text == a.token
  }

  /** The credential in place is ours. */
  predicate InPlace(d: Disk, a: Args) {
    Final in Visible(d) && Visible(d)[Final] < |d.files| && Own(d.files[Visible(d)[Final]], a.uid)
  }

  /** The credential in place holds the token of this call. */
  predicate Published(d: Disk, a: Args) {
    Final in Visible(d) && Made(d, Visible(d)[Final], a)
  }

  /** How far a call has come that found the given users. */
  ghost predicate Progress(hash: Hash, users: map<string, User>, y: Sys, a: Args, pc: Pc) {
    match pc
    case Check => y.users == users
    case UnlinkOrphan(_) => IsNew(users, a) && y.users == users
    case SyncOrphan => IsNew(users, a) && y.users == users
    case CreateTemp => IsNew(users, a) && y.users == users
    case WriteTemp(i) => IsNew(users, a) && y.users == users && i < |y.disk.files| && Own(y.disk.files[i], a.uid)
    case SyncTemp(i) => IsNew(users, a) && y.users == users && Made(y.disk, i, a)
    case SyncStaging(i) => IsNew(users, a) && y.users == users && Made(y.disk, i, a)
    case CreateUser(i) => IsNew(users, a) && y.users == users && Made(y.disk, i, a)
    case Link(i) => IsNew(users, a) && y.users == Added(hash, users, a) && Made(y.disk, i, a)
    case UnlinkTemp(i) => IsNew(users, a) && y.users == Added(hash, users, a) && Made(y.disk, i, a)
    case Compensate => IsNew(users, a) && y.users == Added(hash, users, a)
    case SyncPublished => IsNew(users, a) && y.users == Added(hash, users, a) && Published(y.disk, a)
    case Cleanup(true) => IsNew(users, a) && y.users == Added(hash, users, a) && Published(y.disk, a)
    case Cleanup(false) => IsNew(users, a) && (y.users == users || y.users == Added(hash, users, a))
    case RecoverLink(n) =>
      IsRetry(users, a) && y.users == users && n in Visible(y.disk) && Visible(y.disk)[n] < |y.disk.files|
      && Own(y.disk.files[Visible(y.disk)[n]], a.uid)
    case RecoverUnlink(_) => IsRetry(users, a) && y.users == users && InPlace(y.disk, a)
    case RecoverSync => IsRetry(users, a) && y.users == users && InPlace(y.disk, a)
    case Finished(true) =>
      || (IsRetry(users, a) && y.users == users && InPlace(y.disk, a))
      || (IsNew(users, a) && y.users == Added(hash, users, a) && Published(y.disk, a))
    case Finished(false) => y.users == users || (IsNew(users, a) && y.users == Added(hash, users, a))
  }

  lemma DecisionProgress(hash: Hash, y: Sys, a: Args)
    requires Durable(hash, y, a.publicId)
    ensures Progress(hash, y.users, At(y, a, Decide(hash, y.users, y.disk, a)), a, Decide(hash, y.users, y.disk, a))
  {
    assert Sane(hash, y.users, y.disk, a.publicId, Visible(y.disk));
    StagedAtMostOne(y.disk);
  }

  /** The operation goes on as the progress told. */
  ghost predicate Progresses(hash: Hash, users: map<string, User>, y: Sys, a: Args, pc: Pc, c: Choice) {
    var y' := Advance(hash, y, a, pc, c);
    y'.proc.Some? && y'.proc.value.args == a && Progress(hash, users, y', a, y'.proc.value.pc)
  }

  lemma StagingProgress(hash: Hash, users: map<string, User>, y: Sys, a: Args, pc: Pc, c: Choice)
    requires Progress(hash, users, y, a, pc)
    requires pc.UnlinkOrphan? || pc.SyncOrphan? || pc.CreateTemp? || pc.WriteTemp? || pc.SyncTemp? || pc.SyncStaging?
             || pc.CreateUser?
    ensures Progresses(hash, users, y, a, pc, c)
  {
  }

  lemma PublishingProgress(hash: Hash, users: map<string, User>, y: Sys, a: Args, pc: Pc, c: Choice)
    requires Knows(hash, y, a, pc) && Progress(hash, users, y, a, pc)
    requires pc.Link? || pc.UnlinkTemp? || pc.SyncPublished?
    ensures Progresses(hash, users, y, a, pc, c)
  {
    if pc.Link? {
      AppendVisible(y.disk, Add(Final, pc.inode));
    } else {
      CredentialLeftAlone(hash, y, a, pc, c);
    }
  }

  lemma EndingProgress(hash: Hash, users: map<string, User>, y: Sys, a: Args, pc: Pc, c: Choice)
    requires Knows(hash, y, a, pc) && Progress(hash, users, y, a, pc) && (pc.Compensate? || pc.Cleanup?)
    ensures Progresses(hash, users, y, a, pc, c)
  {
    if pc == Cleanup(true) {
      CredentialLeftAlone(hash, y, a, pc, c);
    } else {
      assert IsNew(users, a) && Added(hash, users, a) - {a.publicId} == users;
    }
  }

  lemma RecoveryProgress(hash: Hash, users: map<string, User>, y: Sys, a: Args, pc: Pc, c: Choice)
    requires Knows(hash, y, a, pc) && Progress(hash, users, y, a, pc)
    requires pc.RecoverLink? || pc.RecoverUnlink? || pc.RecoverSync?
    ensures Progresses(hash, users, y, a, pc, c)
  {
    if pc.RecoverLink? {
      AppendVisible(y.disk, Add(Final, Visible(y.disk)[pc.staged]));
    } else {
      CredentialLeftAlone(hash, y, a, pc, c);
    }
  }

  lemma ProgressKept(hash: Hash, users: map<string, User>, y: Sys, a: Args, pc: Pc, c: Choice)
    requires Knows(hash, y, a, pc) && Progress(hash, users, y, a, pc) && !pc.Check?
    ensures Progresses(hash, users, y, a, pc, c)
  {
    if pc.Link? || pc.UnlinkTemp? || pc.SyncPublished? {
      PublishingProgress(hash, users, y, a, pc, c);
    } else if pc.Compensate? || pc.Cleanup? {
      EndingProgress(hash, users, y, a, pc, c);
    } else if pc.RecoverLink? || pc.RecoverUnlink? || pc.RecoverSync? {
      RecoveryProgress(hash, users, y, a, pc, c);
    } else if pc.Finished? {
    } else {
      StagingProgress(hash, users, y, a, pc, c);
    }
  }

  // ----- the answer -----

  /** A call that found y0 and answers ok leaves y. */
  ghost predicate Answer(hash: Hash, y0: Sys, y: Sys, a: Args, ok: bool) {
    && (Refused(y0.users, y0.disk, a) ==> !ok && y.users == y0.users && y.disk == y0.disk)
    && (ok ==>
          && a.accepted && InPlace(y.disk, a)
          && (if Requested(y0.users, a) then y.users == y0.users
              else IsNew(y0.users, a) && y.users == Added(hash, y0.users, a) && Published(y.disk, a)))
    && (!ok ==> y.users == y0.users || (IsNew(y0.users, a) && y.users == Added(hash, y0.users, a)))
  }
}
