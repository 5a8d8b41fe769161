/**
 `bootstrap_instance` itself, writing to the user table and the credential directory. Every call that
 can raise asks `faults` for its outcome; the method follows the protocol of module Bootstrap call
 for call, so what is proved there of every run holds of this code.
 */
module BootstrapProgram {
  import opened Common
  import opened Bootstrap
  import opened BootstrapRules
  import opened Convergence

  /** The n-th value of a repeated step. */
  ghost function Repeat<T>(step: (T, nat) -> T, start: T, n: nat): T {
    if n == 0 then start else step(Repeat(step, start, n - 1), n - 1)
  }

  ghost predicate Repeats<T(!new)>(run: nat -> T, step: (T, nat) -> T) {
    forall m: nat, n: nat :: n == m + 1 ==> run(n) == step(run(m), m)
  }

  lemma RepeatExists<T(!new)>(step: (T, nat) -> T, start: T) returns (run: nat -> T)
    ensures Repeats(run, step) && run(0) == start
  {
    run := (n: nat) => Repeat(step, start, n);
  }

  lemma {:induction false} RepeatIsUnique<T(!new)>(run: nat -> T, step: (T, nat) -> T, n: nat)
    requires Repeats(run, step)
    ensures run(n) == Repeat(step, run(0), n)
  {
    if n > 0 {
      RepeatIsUnique(run, step, n - 1);
      assert run(n) == step(run(n - 1), n - 1);
    }
  }

  /** One operation of the protocol under the given faults. */
  ghost function Operation(hash: Hash, faults: nat -> Choice): (Sys, nat) -> Sys {
    (y: Sys, m: nat) => Do(hash, y, Go(faults(m)))
  }

  /** The protocol state after n operations of a run. */
  ghost function Follow(hash: Hash, start: Sys, faults: nat -> Choice, n: nat): Sys {
    Repeat(Operation(hash, faults), start, n)
  }

  /** The states of a run of the protocol under the given faults. */
  ghost predicate IsRun(run: nat -> Sys, hash: Hash, faults: nat -> Choice) {
    forall m: nat, n: nat :: n == m + 1 ==> run(n) == Do(hash, run(m), Go(faults(m)))
  }

  lemma OperationsRun(run: nat -> Sys, hash: Hash, faults: nat -> Choice)
    requires Repeats(run, Operation(hash, faults))
    ensures IsRun(run, hash, faults)
  {
    forall m: nat, n: nat | n == m + 1
      ensures run(n) == Do(hash, run(m), Go(faults(m)))
    {
      assert run(n) == Operation(hash, faults)(run(m), m);
    }
  }

  lemma FirstDecision(run: nat -> Sys, hash: Hash, faults: nat -> Choice, y: Sys, a: Args)
    requires IsRun(run, hash, faults) && y.proc.None? && run(0) == Do(hash, y, Start(a))
    ensures run(1) == At(y, a, Decide(hash, y.users, y.disk, a))
  {
  }

  /** A set of at most one entry has no choice to offer. */
  lemma OnlyMember(s: set<Entry>)
    requires |s| <= 1
    ensures forall m, n :: m in s && n in s ==> m == n
  {
    forall m, n | m in s && n in s
      ensures m == n
    {
      assert |s - {m}| == |s| - 1;
      assert n !in s - {m};
    }
  }

  class Instance {
    var users: map<string, User>
    var files: seq<File>
    var durable: map<Entry, nat>
    var pending: seq<DirOp>

    function Directory(): Disk
      reads this
    {
      Disk(files, durable, pending)
    }

    /** The fields agree with the protocol after n operations, at point pc. */
    ghost predicate Tracks(run: nat -> Sys, a: Args, n: nat, pc: Pc)
      reads this
    {
      run(n) == Sys(users, Directory(), Some(Proc(a, pc)))
    }

    constructor (users: map<string, User>)
      ensures this.users == users && Directory() == EMPTY_DISK
    {
      this.users, files, durable, pending := users, [], map[], [];
    }

    method Unlink(name: Entry)
      modifies this`pending
      ensures Directory() == Append(old(Directory()), Remove(name))
    {
      pending := pending + [Remove(name)];
    }

    method LinkCredential(inode: nat)
      modifies this`pending
      ensures Directory() == Append(old(Directory()), Add(Final, inode))
    {
      pending := pending + [Add(Final, inode)];
    }

    method FsyncDirectory()
      modifies this`durable, this`pending
      ensures Directory() == Flush(old(Directory()))
    {
      durable := Visible(Directory());
      pending := [];
    }

    /** The directory sync that ends a recovery. */
    method SyncRecovery(hash: Hash, a: Args, ghost run: nat -> Sys, faults: nat -> Choice, k: nat)
      returns (ok: bool, n: nat)
      requires IsRun(run, hash, faults) && Tracks(run, a, k, RecoverSync)
      modifies this
      ensures Tracks(run, a, n, Finished(ok))
    {
      if !faults(k).ok {
        return false, k + 1;
      }
      FsyncDirectory();
      return true, k + 1;
    }

    /** Unlinking the staging name, once the credential is in place. */
    method UnlinkStaged(hash: Hash, a: Args, ghost run: nat -> Sys, faults: nat -> Choice, k: nat, name: Entry)
      returns (raised: bool)
      requires IsRun(run, hash, faults) && Tracks(run, a, k, RecoverUnlink(name))
      modifies this
      ensures Tracks(run, a, k + 1, if raised then Finished(false) else RecoverSync)
    {
      if !faults(k).ok {
        return true;
      }
      Unlink(name);
      raised := false;
    }

    method FinishRecovery(hash: Hash, a: Args, ghost run: nat -> Sys, faults: nat -> Choice, k: nat, name: Entry)
      returns (ok: bool, n: nat)
      requires IsRun(run, hash, faults) && Tracks(run, a, k, RecoverUnlink(name))
      modifies this
      ensures Tracks(run, a, n, Finished(ok))
    {
      var raised := UnlinkStaged(hash, a, run, faults, k, name);
      if raised {
        return false, k + 1;
      }
      ok, n := SyncRecovery(hash, a, run, faults, k + 1);
    }

    /** The `finally` clause. */
    method RemoveTemporary(hash: Hash, a: Args, ghost run: nat -> Sys, faults: nat -> Choice, k: nat, result: bool)
      returns (ok: bool, n: nat)
      requires IsRun(run, hash, faults) && Tracks(run, a, k, Cleanup(result))
      modifies this
      ensures Tracks(run, a, n, Finished(ok))
    {
      if Staged(a.pid) in Visible(Directory()) {
        if !faults(k).ok {
          return false, k + 1;
        }
        Unlink(Staged(a.pid));
      }
      return result, k + 1;
    }

    /** Publishing failed: delete the row; when even that fails, leave the staging file for a retry. */
    method CompensateRow(hash: Hash, a: Args, ghost run: nat -> Sys, faults: nat -> Choice, k: nat)
      returns (ok: bool, n: nat)
      requires IsRun(run, hash, faults) && Tracks(run, a, k, Compensate)
      modifies this
      ensures Tracks(run, a, n, Finished(ok))
    {
      if faults(k).ok || faults(k).gone {
        users := users - {a.publicId};
      }
      if !faults(k).ok {
        return false, k + 1;
      }
      ok, n := RemoveTemporary(hash, a, run, faults, k + 1, false);
    }

    /** `os.link` without replacing: an existing credential makes it raise. */
    method LinkNew(hash: Hash, a: Args, ghost run: nat -> Sys, faults: nat -> Choice, k: nat, inode: nat)
      returns (raised: bool)
      requires IsRun(run, hash, faults) && Tracks(run, a, k, Link(inode))
      modifies this
      ensures Tracks(run, a, k + 1, if raised then Compensate else UnlinkTemp(inode))
    {
      if !faults(k).ok || Final in Visible(Directory()) {
        return true;
      }
      LinkCredential(inode);
      raised := false;
    }

    /** `temporary.unlink()`. */
    method UnlinkTemporary(hash: Hash, a: Args, ghost run: nat -> Sys, faults: nat -> Choice, k: nat, inode: nat)
      returns (raised: bool)
      requires IsRun(run, hash, faults) && Tracks(run, a, k, UnlinkTemp(inode))
      modifies this
      ensures Tracks(run, a, k + 1, if raised then Compensate else SyncPublished)
    {
      if !faults(k).ok {
        return true;
      }
      Unlink(Staged(a.pid));
      raised := false;
    }

    /** The directory sync after publishing. */
    method SyncCredential(hash: Hash, a: Args, ghost run: nat -> Sys, faults: nat -> Choice, k: nat, inode: nat)
      returns (raised: bool)
      requires IsRun(run, hash, faults) && Tracks(run, a, k, SyncPublished)
      modifies this
      ensures Tracks(run, a, k + 1, if raised then Cleanup(false) else Cleanup(true))
    {
      if !faults(k).ok {
        return true;
      }
      FsyncDirectory();
      raised := false;
    }

    /** Link the credential, unlink the staging name, sync; compensate when publishing fails. */
    method Publish(hash: Hash, a: Args, ghost run: nat -> Sys, faults: nat -> Choice, k: nat, inode: nat)
      returns (ok: bool, n: nat)
      requires IsRun(run, hash, faults) && Tracks(run, a, k, Link(inode))
      modifies this
      ensures Tracks(run, a, n, Finished(ok))
    {
      var raised := LinkNew(hash, a, run, faults, k, inode);
      if raised {
        ok, n := CompensateRow(hash, a, run, faults, k + 1);
        return;
      }
      raised := UnlinkTemporary(hash, a, run, faults, k + 1, inode);
      if raised {
        ok, n := CompensateRow(hash, a, run, faults, k + 2);
        return;
      }
      raised := SyncCredential(hash, a, run, faults, k + 2, inode);
      ok, n := RemoveTemporary(hash, a, run, faults, k + 3, !raised);
    }

    /** fsync of the staged token. */
    method SyncFile(hash: Hash, a: Args, ghost run: nat -> Sys, faults: nat -> Choice, k: nat, inode: nat)
      returns (raised: bool)
      requires IsRun(run, hash, faults) && Tracks(run, a, k, SyncTemp(inode)) && inode < |files|
      modifies this
      ensures Tracks(run, a, k + 1, if raised then Cleanup(false) else SyncStaging(inode))
    {
      if !faults(k).ok {
        return true;
      }
      files := files[inode := files[inode].(synced := true)];
      raised := false;
    }

    /** fsync of the directory before the commit. */
    method SyncStagedName(hash: Hash, a: Args, ghost run: nat -> Sys, faults: nat -> Choice, k: nat, inode: nat)
      returns (raised: bool)
      requires IsRun(run, hash, faults) && Tracks(run, a, k, SyncStaging(inode))
      modifies this
      ensures Tracks(run, a, k + 1, if raised then Cleanup(false) else CreateUser(inode))
    {
      if !faults(k).ok {
        return true;
      }
      FsyncDirectory();
      raised := false;
    }

    /** The insert and its commit; the unique columns make it raise. */
    method CreateDeveloper(hash: Hash, a: Args, ghost run: nat -> Sys, faults: nat -> Choice, k: nat, inode: nat)
      returns (raised: bool)
      requires IsRun(run, hash, faults) && Tracks(run, a, k, CreateUser(inode))
      modifies this
      ensures Tracks(run, a, k + 1, if raised then Cleanup(false) else Link(inode))
    {
      if !faults(k).ok || a.publicId in users || NameHeldElsewhere(users, a) {
        return true;
      }
      users := users[a.publicId := User(a.username, hash(a.token), a.workspace)];
      raised := false;
    }

    /** Write and flush the token; a failure may leave part of it. */
    method WriteToken(hash: Hash, a: Args, ghost run: nat -> Sys, faults: nat -> Choice, k: nat, inode: nat)
      returns (raised: bool)
      requires IsRun(run, hash, faults) && Tracks(run, a, k, WriteTemp(inode)) && inode < |files|
      modifies this
      ensures |files| == old(|files|)
      ensures Tracks(run, a, k + 1, if raised then Cleanup(false) else SyncTemp(inode))
    {
      if !faults(k).ok {
        files := files[inode := files[inode].(text := a.token[..Min(faults(k).cut, |a.token|)])];
        return true;
      }
      files := files[inode := files[inode].(text := a.token)];
      raised := false;
    }

    /** Create the staging file exclusively, make the token in it durable, commit the row, publish. */
    method StageToken(hash: Hash, a: Args, ghost run: nat -> Sys, faults: nat -> Choice, k: nat)
      returns (ok: bool, n: nat)
      requires IsRun(run, hash, faults) && Tracks(run, a, k, CreateTemp)
      modifies this
      ensures Tracks(run, a, n, Finished(ok))
    {
      if !faults(k).ok || Staged(a.pid) in Visible(Directory()) {
        return false, k + 1;
      }
      var inode := |files|;
      files := files + [File("", false, a.uid, 0x180)];
      pending := pending + [Add(Staged(a.pid), inode)];
      ok, n := FillAndCommit(hash, a, run, faults, k + 1, inode);
    }

    /** The body of the `try`: any failure before publishing goes to the `finally` clause. */
    method FillAndCommit(hash: Hash, a: Args, ghost run: nat -> Sys, faults: nat -> Choice, k: nat, inode: nat)
      returns (ok: bool, n: nat)
      requires IsRun(run, hash, faults) && Tracks(run, a, k, WriteTemp(inode)) && inode < |files|
      modifies this
      ensures Tracks(run, a, n, Finished(ok))
    {
      var raised := WriteToken(hash, a, run, faults, k, inode);
      if !raised {
        raised := SyncFile(hash, a, run, faults, k + 1, inode);
        if !raised {
          raised := SyncStagedName(hash, a, run, faults, k + 2, inode);
          if !raised {
            raised := CreateDeveloper(hash, a, run, faults, k + 3, inode);
            if !raised {
              ok, n := Publish(hash, a, run, faults, k + 4, inode);
              return;
            }
            ok, n := RemoveTemporary(hash, a, run, faults, k + 4, false);
            return;
          }
          ok, n := RemoveTemporary(hash, a, run, faults, k + 3, false);
          return;
        }
        ok, n := RemoveTemporary(hash, a, run, faults, k + 2, false);
        return;
      }
      ok, n := RemoveTemporary(hash, a, run, faults, k + 1, false);
    }

    /** A row exists: finish what an interrupted run left, or refuse. */
    method Recover(hash: Hash, a: Args, ghost run: nat -> Sys, faults: nat -> Choice, staged: set<Entry>)
      returns (ok: bool, n: nat)
      requires staged == StagedEntries(Directory()) && a.accepted
      requires a.publicId in users || NameHeldElsewhere(users, a)
      requires IsRun(run, hash, faults) && Tracks(run, a, 1, Decide(hash, users, Directory(), a))
      modifies this
      ensures Tracks(run, a, n, Finished(ok))
    {
      if a.publicId !in users || users[a.publicId].username != a.username
         || users[a.publicId].workspace != a.workspace {
        return false, 1;
      }
      if |staged| > 1 {
        return false, 1;
      }
      OnlyMember(staged);
      var expected := users[a.publicId].tokenHash;
      if Final in Visible(Directory()) {
        if !Matches(Directory(), Final, a.uid, hash, expected) {
          return false, 1;
        }
        if staged == {} {
          ok, n := SyncRecovery(hash, a, run, faults, 1);
          return;
        }
        var name :| name in staged;
        if !Matches(Directory(), name, a.uid, hash, expected) {
          return false, 1;
        }
        ok, n := FinishRecovery(hash, a, run, faults, 1, name);
        return;
      }
      if |staged| != 1 {
        return false, 1;
      }
      var name :| name in staged;
      if !Matches(Directory(), name, a.uid, hash, expected) {
        return false, 1;
      }
      if !faults(1).ok {
        return false, 2;
      }
      LinkCredential(Visible(Directory())[name]);
      ok, n := FinishRecovery(hash, a, run, faults, 2, name);
    }

    /** `bootstrap_instance`: the number of operations it made and whether it succeeded. */
    method BootstrapInstance(hash: Hash, a: Args, faults: nat -> Choice) returns (ok: bool, n: nat)
      requires Inv(hash, Sys(users, Directory(), None), a.publicId) && ValidToken(a.token)
      modifies this
      ensures Follow(hash, Do(hash, old(Sys(users, Directory(), None)), Start(a)), faults, n)
           == Sys(users, Directory(), Some(Proc(a, Finished(ok))))
      ensures Inv(hash, Sys(users, Directory(), None), a.publicId)
      ensures ok ==> a.publicId in users && Visible(Directory()).Keys == {Final} && pending == []
      ensures a.publicId in users ==> TokenOnDisk(hash, Sys(users, Directory(), None), a.publicId)
      ensures !a.accepted || Conflict(old(users), a) ==> !ok && users == old(users) && Directory() == old(Directory())
      ensures ok ==> users[a.publicId].username == a.username && users[a.publicId].workspace == a.workspace
      ensures forall id :: id != a.publicId ==> (id in users <==> id in old(users))
      ensures forall id :: id in old(users) ==> id in users && users[id] == old(users)[id]
      ensures Answer(hash, old(Sys(users, Directory(), None)), Sys(users, Directory(), None), a, ok)
      ensures (forall m: nat :: faults(m).ok) ==> (ok <==> !Refused(old(users), old(Directory()), a))
    {
      ghost var y := Sys(users, Directory(), None);
      ghost var start := Do(hash, y, Start(a));
      ghost var run := RepeatExists(Operation(hash, faults), start);
      OperationsRun(run, hash, faults);
      FirstDecision(run, hash, faults, y, a);
      ok, n := RunFromDecision(hash, a, run, faults);
      RepeatIsUnique(run, Operation(hash, faults), n);
      InvKept(hash, y, a.publicId, Start(a));
      FollowKeepsInv(hash, start, a.publicId, faults, n);
      EndedWell(hash, Sys(users, Directory(), Some(Proc(a, Finished(ok)))), a.publicId, a, ok);
      FollowAnswers(hash, y, a, faults, n, Sys(users, Directory(), None), ok);
    }

    method RunFromDecision(hash: Hash, a: Args, ghost run: nat -> Sys, faults: nat -> Choice) returns (ok: bool, n: nat)
      requires IsRun(run, hash, faults) && Tracks(run, a, 1, Decide(hash, users, Directory(), a))
      modifies this
      ensures Tracks(run, a, n, Finished(ok))
    {
      if !a.accepted {
        return false, 1;
      }
      var staged := set m | m in Visible(Directory()) && m.Staged?;
      if a.publicId in users || NameHeldElsewhere(users, a) {
        ok, n := Recover(hash, a, run, faults, staged);
        return;
      }
      if Final in Visible(Directory()) {
        return false, 1;
      }
      if staged == {} {
        ok, n := StageToken(hash, a, run, faults, 1);
        return;
      }
      if |staged| != 1 {
        return false, 1;
      }
      OnlyMember(staged);
      var orphan :| orphan in staged;
      if !Readable(Directory(), orphan, a.uid) {
        return false, 1;
      }
      if !faults(1).ok {
        return false, 2;
      }
      Unlink(orphan);
      if !faults(2).ok {
        return false, 3;
      }
      FsyncDirectory();
      ok, n := StageToken(hash, a, run, faults, 3);
    }
  }

  lemma {:induction false} FollowKeepsInv(hash: Hash, start: Sys, id: string, faults: nat -> Choice, n: nat)
    requires Inv(hash, start, id)
    ensures Inv(hash, Follow(hash, start, faults, n), id)
  {
    if n > 0 {
      FollowKeepsInv(hash, start, id, faults, n - 1);
      InvKept(hash, Follow(hash, start, faults, n - 1), id, Go(faults(n - 1)));
    }
  }

  /** After its first operation a call is where the decision led, or further. */
  lemma {:induction false} FollowProgress(hash: Hash, y: Sys, a: Args, faults: nat -> Choice, n: nat)
    requires Inv(hash, y, a.publicId) && y.proc.None? && ValidToken(a.token) && 1 <= n
    ensures var z := Follow(hash, Do(hash, y, Start(a)), faults, n);
            && z.proc.Some? && z.proc.value.args == a && !z.proc.value.pc.Check?
            && Progress(hash, y.users, z, a, z.proc.value.pc)
            && (Refused(y.users, y.disk, a) ==> z == At(y, a, Finished(false)))
            && (!Refused(y.users, y.disk, a) && (forall m: nat :: faults(m).ok) ==> Good(z.proc.value.pc))
    decreases n
  {
    var start := Do(hash, y, Start(a));
    InvKept(hash, y, a.publicId, Start(a));
    var z := Follow(hash, start, faults, n - 1);
    assert Follow(hash, start, faults, n) == Do(hash, z, Go(faults(n - 1)));
    if n == 1 {
      RefusedIff(hash, y, a);
      DecisionProgress(hash, y, a);
    } else {
      FollowProgress(hash, y, a, faults, n - 1);
      FollowKeepsInv(hash, start, a.publicId, faults, n - 1);
      ProgressKept(hash, y.users, z, a, z.proc.value.pc, faults(n - 1));
      if Good(z.proc.value.pc) && faults(n - 1).ok {
        GoodGoesOn(hash, z, a, z.proc.value.pc, faults(n - 1));
      }
    }
  }

  lemma FollowAnswers(hash: Hash, y: Sys, a: Args, faults: nat -> Choice, n: nat, z: Sys, ok: bool)
    requires Inv(hash, y, a.publicId) && y.proc.None? && ValidToken(a.token) && z.proc.None?
    requires Follow(hash, Do(hash, y, Start(a)), faults, n) == z.(proc := Some(Proc(a, Finished(ok))))
    ensures Answer(hash, y, z, a, ok)
    ensures (forall m: nat :: faults(m).ok) ==> (ok <==> !Refused(y.users, y.disk, a))
  {
    if n == 0 {
      assert false;
    }
    FollowProgress(hash, y, a, faults, n);
  }

  lemma CommittedTokenOnDisk(hash: Hash, y: Sys, id: string)
    requires Durable(hash, y, id)
    ensures id in y.users ==> TokenOnDisk(hash, y, id)
  {
    assert Sane(hash, y.users, y.disk, id, Visible(y.disk));
    if id in y.users {
      assert Visible(y.disk) != map[];
      var n :| n in Visible(y.disk);
      assert Bound(y.disk, n);
    }
  }

  lemma EndedWell(hash: Hash, y: Sys, id: string, a: Args, ok: bool)
    requires Inv(hash, y, id) && y.proc == Some(Proc(a, Finished(ok))) && id == a.publicId
    ensures Inv(hash, y.(proc := None), id)
    ensures ok ==> id in y.users && Visible(y.disk).Keys == {Final} && y.disk.pending == []
    ensures id in y.users ==> TokenOnDisk(hash, y.(proc := None), id)
  {
    CommittedTokenOnDisk(hash, y.(proc := None), id);
  }
}
