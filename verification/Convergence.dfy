/**
 When a retry of the bootstrap succeeds, and what success is worth: the per-instance checks of
 verify_bootstrap.py. Every run is started with the same request; any call may fail and power may be
 lost at any point.
 */
module Convergence {
  import opened Common
  import opened Bootstrap

  // ----- the verifier -----

  function StripLeft(s: string): string {
    if s != "" && Space(s[0]) then StripLeft(s[1..]) else s
  }

  function StripRight(s: string): string {
    if s != "" && Space(s[|s| - 1]) then StripRight(s[..|s| - 1]) else s
  }

  /** `str.strip()`. */
  function StripText(s: string): string {
    StripRight(StripLeft(s))
  }

  /**
   The per-instance credential and workspace checks of `verify_bootstrap`: exactly the one credential
   entry, on disk for good, safely owned, whose stripped text hashes to the stored value.
   */
  ghost predicate Verified(hash: Hash, y: Sys, a: Args) {
    && a.publicId in y.users && y.users[a.publicId].workspace == a.workspace
    && y.users[a.publicId].username == a.username
    && y.disk.pending == [] && Visible(y.disk).Keys == {Final} && Bound(y.disk, Final)
    && var f := FileOf(y.disk, Final);
    f.synced && f.owner == a.uid && (f.mode == 0x100 || f.mode == 0x180)
    && StripText(f.text) != "" && hash(StripText(f.text)) == y.users[a.publicId].tokenHash
  }

  // ----- convergence -----

  predicate SameRequest(a: Args, b: Args) {
    a == b.(token := a.token, pid := a.pid)
  }

  ghost predicate OwnedBy(d: Disk, uid: nat) {
    forall i :: 0 <= i < |d.files| ==> d.files[i].owner == uid && d.files[i].mode == 0x180
  }

  /** What holds while every run is started with the same request, whatever fails. */
  ghost predicate Orderly(hash: Hash, y: Sys, r: Args) {
    && Inv(hash, y, r.publicId)
    && !NameHeldElsewhere(y.users, r)
    && (r.publicId in y.users ==>
          y.users[r.publicId].username == r.username && y.users[r.publicId].workspace == r.workspace)
    && OwnedBy(y.disk, r.uid)
    && (y.proc.Some? ==> SameRequest(y.proc.value.args, r))
  }

  /** Any call may fail and power may be lost at any point. */
  predicate Attempt(act: Act, r: Args) {
    act.Start? ==> SameRequest(act.args, r) && ValidToken(act.args.token)
  }

  /** Nothing fails but the power. */
  predicate CrashesOnly(act: Act, r: Args) {
    Attempt(act, r) && (act.Go? ==> act.choice.ok)
  }

  lemma OwnersKept(hash: Hash, y: Sys, a: Args, pc: Pc, c: Choice)
    requires OwnedBy(y.disk, a.uid)
    ensures OwnedBy(Advance(hash, y, a, pc, c).disk, a.uid)
  {
  }

  /** A run only ever adds this instance's row, as requested, or takes it back in compensation. */
  lemma RowsFollow(hash: Hash, y: Sys, a: Args, pc: Pc, c: Choice)
    requires !NameHeldElsewhere(y.users, a)
    ensures var users' := Advance(hash, y, a, pc, c).users;
            && !NameHeldElsewhere(users', a)
            && (a.publicId in users' && a.publicId in y.users ==> users'[a.publicId] == y.users[a.publicId])
            && (a.publicId in y.users && a.publicId !in users' ==> pc.Compensate?)
            && (a.publicId in users' && a.publicId !in y.users ==>
                  users'[a.publicId] == User(a.username, hash(a.token), a.workspace))
  {
  }

  lemma OrderlyKept(hash: Hash, y: Sys, r: Args, act: Act)
    requires Orderly(hash, y, r) && Attempt(act, r)
    ensures Orderly(hash, Do(hash, y, act), r)
  {
    InvKept(hash, y, r.publicId, act);
    if act.Go? && y.proc.Some? {
      var a, pc := y.proc.value.args, y.proc.value.pc;
      OwnersKept(hash, y, a, pc, act.choice);
      RowsFollow(hash, y, a, pc, act.choice);
      AdvanceLands(hash, y, a, pc, act.choice);
    }
  }

  lemma {:induction false} OrderlyPlay(hash: Hash, y: Sys, r: Args, acts: seq<Act>)
    requires Orderly(hash, y, r) && forall k :: 0 <= k < |acts| ==> Attempt(acts[k], r)
    ensures Orderly(hash, Play(hash, y, acts), r)
    decreases |acts|
  {
    if acts != [] {
      OrderlyKept(hash, y, r, acts[0]);
      OrderlyPlay(hash, Do(hash, y, acts[0]), r, acts[1..]);
    }
  }

  // ----- crashes alone never leave a credential without a row -----

  /** Without a row no aftermath shows a credential, and no run is compensating. */
  ghost predicate NoCredential(y: Sys, r: Args) {
    && (r.publicId !in y.users ==> forall k: nat :: k <= |y.disk.pending| ==> Final !in Entries(y.disk, k))
    && (y.proc.Some? ==> !y.proc.value.pc.Compensate?)
  }

  lemma NoFinalAfterAppend(d: Disk, op: DirOp)
    requires forall k: nat :: k <= |d.pending| ==> Final !in Entries(d, k)
    requires op.Add? ==> op.name != Final
    ensures forall k: nat :: k <= |Append(d, op).pending| ==> Final !in Entries(Append(d, op), k)
  {
    forall k: nat | k <= |Append(d, op).pending|
      ensures Final !in Entries(Append(d, op), k)
    {
      AppendVisible(d, op);
      if k <= |d.pending| {
        PrefixKept(d, op, k);
      }
    }
  }

  lemma NoFinalAfterRewrite(d: Disk, files: seq<File>)
    requires forall k: nat :: k <= |d.pending| ==> Final !in Entries(d, k)
    ensures forall k: nat :: k <= |d.pending| ==> Final !in Entries(d.(files := files), k)
  {
    forall k: nat | k <= |d.pending|
      ensures Final !in Entries(d.(files := files), k)
    {
      FilesDontMatter(d, files, k);
    }
  }

  lemma NoFinalKept(hash: Hash, y: Sys, a: Args, pc: Pc, c: Choice)
    requires Durable(hash, y, a.publicId) && Knows(hash, y, a, pc) && c.ok && !pc.Compensate?
    requires a.publicId !in y.users && forall k: nat :: k <= |y.disk.pending| ==> Final !in Entries(y.disk, k)
    ensures var y' := Advance(hash, y, a, pc, c);
            a.publicId !in y'.users ==> forall k: nat :: k <= |y'.disk.pending| ==> Final !in Entries(y'.disk, k)
  {
    var y', d := Advance(hash, y, a, pc, c), y.disk;
    if pc.UnlinkOrphan? {
      NoFinalAfterAppend(d, Remove(pc.orphan));
    } else if pc.CreateTemp? {
      if y'.disk != d {
        var files := d.files + [File("", false, a.uid, 0x180)];
        NoFinalAfterRewrite(d, files);
        NoFinalAfterAppend(d.(files := files), Add(Staged(a.pid), |d.files|));
      }
    } else if pc.WriteTemp? || pc.SyncTemp? {
      NoFinalAfterRewrite(d, y'.disk.files);
    } else if pc.Cleanup? {
      NoFinalAfterAppend(d, Remove(Staged(a.pid)));
    }
  }

  lemma NeverCompensates(hash: Hash, y: Sys, a: Args, pc: Pc, c: Choice)
    requires Durable(hash, y, a.publicId) && Knows(hash, y, a, pc) && c.ok && !pc.Compensate?
    ensures var y' := Advance(hash, y, a, pc, c);
            y'.proc.Some? && y'.proc.value.args == a && !y'.proc.value.pc.Compensate?
  {
    if pc.Link? {
      assert Final !in Visible(y.disk);
    }
  }

  lemma NoCredentialKept(hash: Hash, y: Sys, r: Args, act: Act)
    requires Orderly(hash, y, r) && NoCredential(y, r) && CrashesOnly(act, r)
    ensures NoCredential(Do(hash, y, act), r)
  {
    if act.Go? && y.proc.Some? {
      var a, pc := y.proc.value.args, y.proc.value.pc;
      NeverCompensates(hash, y, a, pc, act.choice);
      RowsFollow(hash, y, a, pc, act.choice);
      if r.publicId !in y.users {
        NoFinalKept(hash, y, a, pc, act.choice);
      }
    }
  }

  lemma {:induction false} NoCredentialPlay(hash: Hash, y: Sys, r: Args, acts: seq<Act>)
    requires Orderly(hash, y, r) && NoCredential(y, r) && forall k :: 0 <= k < |acts| ==> CrashesOnly(acts[k], r)
    ensures NoCredential(Play(hash, y, acts), r)
    decreases |acts|
  {
    if acts != [] {
      OrderlyKept(hash, y, r, acts[0]);
      NoCredentialKept(hash, y, r, acts[0]);
      NoCredentialPlay(hash, Do(hash, y, acts[0]), r, acts[1..]);
    }
  }

  // ----- an undisturbed run -----

  /** The step is not a failure, and leaves less to do. */
  ghost predicate GoesOn(hash: Hash, y: Sys, a: Args, pc: Pc, c: Choice) {
    var pc' := Advance(hash, y, a, pc, c).proc.value.pc;
    Good(pc') && !pc'.Check? && (Left(pc') < Left(pc) || pc'.Finished?)
  }

  lemma StagingGoesOn(hash: Hash, y: Sys, a: Args, pc: Pc, c: Choice)
    requires Durable(hash, y, a.publicId) && Knows(hash, y, a, pc) && c.ok
    requires pc.UnlinkOrphan? || pc.SyncOrphan? || pc.CreateTemp? || pc.WriteTemp? || pc.SyncTemp? || pc.SyncStaging?
    ensures GoesOn(hash, y, a, pc, c)
  {
    assert Sane(hash, y.users, y.disk, a.publicId, Visible(y.disk));
    if pc.WriteTemp? || pc.SyncTemp? {
      assert Staged(a.pid) in Visible(y.disk);
    } else if pc.CreateTemp? {
      assert Staged(a.pid) !in Visible(y.disk);
    }
  }

  lemma PublishingGoesOn(hash: Hash, y: Sys, a: Args, pc: Pc, c: Choice)
    requires Knows(hash, y, a, pc) && c.ok && (pc.Link? || pc.UnlinkTemp? || pc.SyncPublished?)
    ensures GoesOn(hash, y, a, pc, c)
  {
    if pc.Link? {
      assert Final !in Visible(y.disk);
    }
  }

  lemma CommitGoesOn(hash: Hash, y: Sys, a: Args, i: nat, c: Choice)
    requires Knows(hash, y, a, CreateUser(i)) && c.ok && !NameHeldElsewhere(y.users, a)
    ensures GoesOn(hash, y, a, CreateUser(i), c)
  {
  }

  lemma EndingGoesOn(hash: Hash, y: Sys, a: Args, pc: Pc, c: Choice)
    requires Knows(hash, y, a, pc) && c.ok && (pc == Cleanup(true) || pc == Finished(true))
    ensures GoesOn(hash, y, a, pc, c)
  {
    if pc.Cleanup? {
      assert Staged(a.pid) !in Visible(y.disk);
    }
  }

  lemma RecoveryGoesOn(hash: Hash, y: Sys, a: Args, pc: Pc, c: Choice)
    requires Knows(hash, y, a, pc) && c.ok
    requires pc.RecoverLink? || pc.RecoverUnlink? || pc.RecoverSync?
    ensures GoesOn(hash, y, a, pc, c)
  {
    if pc.RecoverLink? {
      assert pc.staged in Visible(y.disk) && Final !in Visible(y.disk);
    }
  }

  /** Without a failing call, a run goes on toward success. */
  lemma GoodGoesOn(hash: Hash, y: Sys, a: Args, pc: Pc, c: Choice)
    requires Durable(hash, y, a.publicId) && Knows(hash, y, a, pc) && c.ok
    requires Good(pc) && !pc.Check? && (pc.CreateUser? ==> !NameHeldElsewhere(y.users, a))
    ensures GoesOn(hash, y, a, pc, c)
  {
    if pc.UnlinkOrphan? || pc.SyncOrphan? || pc.CreateTemp? || pc.WriteTemp? || pc.SyncTemp? || pc.SyncStaging? {
      StagingGoesOn(hash, y, a, pc, c);
    } else if pc.RecoverLink? || pc.RecoverUnlink? || pc.RecoverSync? {
      RecoveryGoesOn(hash, y, a, pc, c);
    } else if pc.CreateUser? {
      CommitGoesOn(hash, y, a, pc.inode, c);
    } else if pc.Cleanup? || pc.Finished? {
      EndingGoesOn(hash, y, a, pc, c);
    } else {
      PublishingGoesOn(hash, y, a, pc, c);
    }
  }

  /** Points of a run that no failing call has been met on the way to. */
  predicate Good(pc: Pc) {
    !pc.Compensate? && pc != Cleanup(false) && pc != Finished(false)
  }

  /** Operations left on an undisturbed run. */
  function Left(pc: Pc): nat {
    match pc
    case Check => 12
    case UnlinkOrphan(_) => 11
    case SyncOrphan => 10
    case CreateTemp => 9
    case WriteTemp(_) => 8
    case SyncTemp(_) => 7
    case SyncStaging(_) => 6
    case CreateUser(_) => 5
    case Link(_) => 4
    case UnlinkTemp(_) => 3
    case SyncPublished => 2
    case Compensate => 2
    case Cleanup(_) => 1
    case RecoverLink(_) => 3
    case RecoverUnlink(_) => 2
    case RecoverSync => 1
    case Finished(_) => 0
  }

  const FINE := Choice(true, 0, false)

  /** The next n operations, none failing. */
  ghost function Settle(hash: Hash, y: Sys, n: nat): Sys
    decreases n
  {
    if n == 0 then y else Settle(hash, Do(hash, y, Go(FINE)), n - 1)
  }

  /** An orderly run no failing call has been met in, with at most n operations to go. */
  ghost predicate OnCourse(hash: Hash, y: Sys, r: Args, n: nat) {
    && Orderly(hash, y, r) && y.proc.Some?
    && Good(y.proc.value.pc) && !y.proc.value.pc.Check? && Left(y.proc.value.pc) <= n
  }

  ghost predicate RowKept(y: Sys, z: Sys, id: string) {
    id in y.users ==> id in z.users && z.users[id] == y.users[id]
  }

  lemma GoodStep(hash: Hash, y: Sys, r: Args, n: nat)
    requires OnCourse(hash, y, r, n)
    ensures var z := Do(hash, y, Go(FINE));
            OnCourse(hash, z, r, if n == 0 then 0 else n - 1) && RowKept(y, z, r.publicId)
  {
    OrderlyKept(hash, y, r, Go(FINE));
    RowsFollow(hash, y, y.proc.value.args, y.proc.value.pc, FINE);
    GoodGoesOn(hash, y, y.proc.value.args, y.proc.value.pc, FINE);
  }

  lemma {:induction false} CourseHolds(hash: Hash, y: Sys, r: Args, n: nat)
    requires OnCourse(hash, y, r, n)
    ensures OnCourse(hash, Settle(hash, y, n), r, 0)
    decreases n
  {
    if n > 0 {
      GoodStep(hash, y, r, n);
      CourseHolds(hash, Do(hash, y, Go(FINE)), r, n - 1);
    }
  }

  lemma {:induction false} RowHolds(hash: Hash, y: Sys, r: Args, n: nat)
    requires OnCourse(hash, y, r, n)
    ensures RowKept(y, Settle(hash, y, n), r.publicId)
    decreases n
  {
    if n > 0 {
      GoodStep(hash, y, r, n);
      RowHolds(hash, Do(hash, y, Go(FINE)), r, n - 1);
    }
  }

  lemma NothingLeft(pc: Pc)
    requires Good(pc) && Left(pc) == 0
    ensures pc == Finished(true)
  {
  }

  lemma GoodRunSucceeds(hash: Hash, y: Sys, r: Args, n: nat)
    requires OnCourse(hash, y, r, n)
    ensures var z := Settle(hash, y, n);
            && Orderly(hash, z, r) && z.proc.Some? && z.proc.value.pc == Finished(true)
            && RowKept(y, z, r.publicId)
  {
    CourseHolds(hash, y, r, n);
    RowHolds(hash, y, r, n);
    NothingLeft(Settle(hash, y, n).proc.value.pc);
  }

  lemma {:induction false} RefusedStays(hash: Hash, y: Sys, n: nat)
    requires y.proc.Some? && y.proc.value.pc.Finished?
    ensures Settle(hash, y, n) == y
    decreases n
  {
    if n > 0 {
      RefusedStays(hash, y, n - 1);
    }
  }

  /** A visible staging file that a crash left empty. */
  ghost predicate EmptyStaging(d: Disk) {
    exists n :: n in StagedEntries(d) && Bound(d, n) && FileOf(d, n).text == ""
  }

  lemma NothingToStrip(s: string)
    requires ValidToken(s)
    ensures StripText(s) == s
  {
  }

  lemma SuccessIsVerified(hash: Hash, y: Sys, r: Args)
    requires Orderly(hash, y, r) && y.proc.Some? && y.proc.value.pc == Finished(true)
    ensures Verified(hash, y, r)
  {
    assert Sane(hash, y.users, y.disk, r.publicId, Visible(y.disk));
    assert Final in Visible(y.disk);
    NothingToStrip(FileOf(y.disk, Final).text);
  }

  /** What makes a retry refuse: no row, and a credential or an empty staging file in its way. */
  ghost predicate Blocked(y: Sys, id: string) {
    id !in y.users && (Final in Visible(y.disk) || EmptyStaging(y.disk))
  }

  /** With a row every name leads to its token, and there is one. */
  lemma AllBacked(hash: Hash, y: Sys, id: string)
    requires Durable(hash, y, id) && id in y.users
    ensures Visible(y.disk) != map[]
    ensures forall n :: n in Visible(y.disk) ==>
                          Bound(y.disk, n) && CommittedFile(hash, FileOf(y.disk, n), y.users[id].tokenHash)
  {
    assert Sane(hash, y.users, y.disk, id, Visible(y.disk));
  }

  /** With a row the directory is its credential, its staging file, or both. */
  lemma CommittedDecision(hash: Hash, y: Sys, a: Args)
    requires Orderly(hash, y, a) && a.accepted && a.publicId in y.users
    ensures var pc := Decide(hash, y.users, y.disk, a); Good(pc) && !pc.Check?
  {
    var d := y.disk;
    AllBacked(hash, y, a.publicId);
    StagedAtMostOne(d);
    assert forall n :: n in Visible(d) ==> n == Final || n in StagedEntries(d);
    var m :| m in Visible(d);
    assert m == Final || StagedEntries(d) == {m};
  }

  /** Without one, a credential or an empty staging file is refused, and any other staging file is removed. */
  lemma FreshDecision(hash: Hash, y: Sys, a: Args)
    requires Orderly(hash, y, a) && a.accepted && a.publicId !in y.users
    ensures var pc := Decide(hash, y.users, y.disk, a);
            if Blocked(y, a.publicId) then pc == Finished(false) else Good(pc) && !pc.Check?
  {
    var d := y.disk;
    assert Sane(hash, y.users, d, a.publicId, Visible(d));
    StagedAtMostOne(d);
    assert forall n :: n in StagedEntries(d) ==> Bound(d, n);
  }

  /** What the first reads of a retry decide. */
  lemma RetryDecision(hash: Hash, y: Sys, a: Args)
    requires Orderly(hash, y, a) && a.accepted
    ensures var pc := Decide(hash, y.users, y.disk, a);
            if Blocked(y, a.publicId) then pc == Finished(false) else Good(pc) && !pc.Check?
  {
    if a.publicId in y.users {
      CommittedDecision(hash, y, a);
    } else {
      FreshDecision(hash, y, a);
    }
  }

  /** How an undisturbed retry with request a ends, from a quiet state y: refused, or done. */
  ghost predicate RetryOutcome(hash: Hash, y: Sys, a: Args, refused: bool) {
    var z := Settle(hash, Do(hash, y, Start(a)), 13);
    && z.proc.Some? && z.proc.value.pc == Finished(!refused)
    && (if refused then z.users == y.users && z.disk == y.disk else Verified(hash, z, a))
    && (a.publicId in y.users ==> a.publicId in z.users && z.users[a.publicId] == y.users[a.publicId])
  }

  lemma RetryFrom(hash: Hash, y: Sys, a: Args)
    requires Orderly(hash, y, a) && Quiet(y) && a.accepted && ValidToken(a.token)
    ensures RetryOutcome(hash, y, a, Blocked(y, a.publicId))
  {
    var y1 := Do(hash, y, Start(a));
    OrderlyKept(hash, y, a, Start(a));
    RetryDecision(hash, y, a);
    OrderlyKept(hash, y1, a, Go(FINE));
    var y2 := Do(hash, y1, Go(FINE));
    assert y2 == At(y, a, Decide(hash, y.users, y.disk, a));
    if Blocked(y, a.publicId) {
      RefusedStays(hash, y2, 12);
    } else {
      GoodRunSucceeds(hash, y2, a, 12);
      SuccessIsVerified(hash, Settle(hash, y2, 12), a);
    }
  }

  lemma OrderlyForSameRequest(hash: Hash, y: Sys, r: Args, a: Args)
    requires Orderly(hash, y, r) && SameRequest(a, r)
    ensures Orderly(hash, y, a)
  {
    assert NameHeldElsewhere(y.users, a) <==> NameHeldElsewhere(y.users, r);
  }

  /**
   Convergence. From any state that runs of one request, failing calls and crashes can lead to, one
   undisturbed retry succeeds if and only if it is not blocked: a row exists, or neither a credential
   nor an empty staging file is left. Success satisfies the verifier; a retry changes no committed
   hash; refusal changes nothing.
   */
  lemma RetrySucceedsIff(hash: Hash, users: map<string, User>, r: Args, acts: seq<Act>, a: Args)
    requires r.publicId !in users && !NameHeldElsewhere(users, r)
    requires forall k :: 0 <= k < |acts| ==> Attempt(acts[k], r)
    requires Quiet(Play(hash, Sys(users, EMPTY_DISK, None), acts))
    requires SameRequest(a, r) && a.accepted && ValidToken(a.token)
    ensures var y := Play(hash, Sys(users, EMPTY_DISK, None), acts);
            RetryOutcome(hash, y, a, Blocked(y, r.publicId))
  {
    FreshInv(hash, users, r.publicId);
    OrderlyPlay(hash, Sys(users, EMPTY_DISK, None), r, acts);
    var y := Play(hash, Sys(users, EMPTY_DISK, None), acts);
    OrderlyForSameRequest(hash, y, r, a);
    RetryFrom(hash, y, a);
  }

  /** After crashes alone the one thing in a retry's way is an empty staging file. */
  lemma CrashesAreAttempts(acts: seq<Act>, r: Args)
    requires forall k :: 0 <= k < |acts| ==> CrashesOnly(acts[k], r)
    ensures forall k :: 0 <= k < |acts| ==> Attempt(acts[k], r)
  {
  }

  /** After crashes alone there is no credential without its row. */
  lemma CrashesLeaveNoCredential(hash: Hash, users: map<string, User>, r: Args, acts: seq<Act>)
    requires r.publicId !in users && !NameHeldElsewhere(users, r)
    requires forall k :: 0 <= k < |acts| ==> CrashesOnly(acts[k], r)
    ensures var y := Play(hash, Sys(users, EMPTY_DISK, None), acts);
            Orderly(hash, y, r) && NoCredential(y, r)
  {
    CrashesAreAttempts(acts, r);
    FreshInv(hash, users, r.publicId);
    OrderlyPlay(hash, Sys(users, EMPTY_DISK, None), r, acts);
    NoCredentialPlay(hash, Sys(users, EMPTY_DISK, None), r, acts);
  }

  lemma RetryConverges(hash: Hash, users: map<string, User>, r: Args, acts: seq<Act>, a: Args)
    requires r.publicId !in users && !NameHeldElsewhere(users, r)
    requires forall k :: 0 <= k < |acts| ==> CrashesOnly(acts[k], r)
    requires Quiet(Play(hash, Sys(users, EMPTY_DISK, None), acts))
    requires SameRequest(a, r) && a.accepted && ValidToken(a.token)
    ensures var y := Play(hash, Sys(users, EMPTY_DISK, None), acts);
            RetryOutcome(hash, y, a, EmptyStaging(y.disk))
  {
    CrashesLeaveNoCredential(hash, users, r, acts);
    OnlyEmptyStagingBlocks(hash, Play(hash, Sys(users, EMPTY_DISK, None), acts), r);
    CrashesAreAttempts(acts, r);
    RetrySucceedsIff(hash, users, r, acts, a);
  }

  lemma OnlyEmptyStagingBlocks(hash: Hash, y: Sys, r: Args)
    requires Orderly(hash, y, r) && NoCredential(y, r)
    ensures Blocked(y, r.publicId) <==> EmptyStaging(y.disk)
  {
    assert Sane(hash, y.users, y.disk, r.publicId, Visible(y.disk));
    if r.publicId !in y.users {
      assert Final !in Entries(y.disk, |y.disk.pending|);
    }
  }

  /** The exception is real: power lost between creating the staging file and syncing it can leave it empty. */
  lemma EmptyStagingIsReachable(hash: Hash, a: Args)
    requires a.accepted && ValidToken(a.token)
    ensures var acts := [Start(a), Go(FINE), Go(FINE), Crash(1, (i: nat) => 0)];
            && (forall k :: 0 <= k < |acts| ==> CrashesOnly(acts[k], a))
            && EmptyStaging(Play(hash, Sys(map[], EMPTY_DISK, None), acts).disk)
  {
    var y0 := Sys(map[], EMPTY_DISK, None);
    var cut := (i: nat) => 0;
    var acts := [Start(a), Go(FINE), Go(FINE), Crash(1, cut)];
    var y1 := Do(hash, y0, Start(a));
    assert StagedEntries(y1.disk) == {};
    var y2 := Do(hash, y1, Go(FINE));
    assert y2 == At(y0, a, CreateTemp);
    var y3 := Do(hash, y2, Go(FINE));
    var d := Disk([File("", false, a.uid, 0x180)], map[], [Add(Staged(a.pid), 0)]);
    assert y3.disk == d;
    var y4 := Do(hash, y3, Crash(1, cut));
    PrefixKept(EMPTY_DISK.(files := d.files), Add(Staged(a.pid), 0), 0);
    assert Entries(d, 1) == ApplyOp(Entries(d, 0), d.pending[0]) == map[Staged(a.pid) := 0];
    assert Visible(y4.disk) == map[Staged(a.pid) := 0];
    assert Staged(a.pid) in StagedEntries(y4.disk);
    FourActs(hash, y0, acts);
  }

  lemma FourActs(hash: Hash, y: Sys, acts: seq<Act>)
    requires |acts| == 4
    ensures Play(hash, y, acts) == Do(hash, Do(hash, Do(hash, Do(hash, y, acts[0]), acts[1]), acts[2]), acts[3])
  {
    var y1 := Do(hash, y, acts[0]);
    var y2 := Do(hash, y1, acts[1]);
    var y3 := Do(hash, y2, acts[2]);
    assert acts[1..][1..] == acts[2..] && acts[2..][1..] == acts[3..] && acts[3..][1..] == [];
    assert Play(hash, y, acts) == Play(hash, y1, acts[1..]);
    assert Play(hash, y1, acts[1..]) == Play(hash, y2, acts[2..]);
    assert Play(hash, y2, acts[2..]) == Play(hash, y3, acts[3..]);
    assert Play(hash, y3, acts[3..]) == Play(hash, Do(hash, y3, acts[3]), []);
  }

  // ----- a credential left without its row -----

  lemma {:induction false} PlayOneMore(hash: Hash, y: Sys, acts: seq<Act>, act: Act)
    ensures Play(hash, y, acts + [act]) == Do(hash, Play(hash, y, acts), act)
    decreases |acts|
  {
    if acts == [] {
      assert [act][1..] == [] && acts + [act] == [act];
    } else {
      assert (acts + [act])[1..] == acts[1..] + [act];
      PlayOneMore(hash, Do(hash, y, acts[0]), acts[1..], act);
    }
  }

  /** A history of one request that leads from nothing to a state. */
  ghost predicate Leads(hash: Hash, a: Args, acts: seq<Act>, y: Sys) {
    && Play(hash, Sys(map[], EMPTY_DISK, None), acts) == y
    && forall k :: 0 <= k < |acts| ==> Attempt(acts[k], a)
  }

  lemma Then(hash: Hash, a: Args, acts: seq<Act>, y: Sys, act: Act, z: Sys) returns (more: seq<Act>)
    requires Leads(hash, a, acts, y) && Attempt(act, a) && Do(hash, y, act) == z
    ensures Leads(hash, a, more, z)
  {
    PlayOneMore(hash, Sys(map[], EMPTY_DISK, None), acts, act);
    more := acts + [act];
  }

  function TokenFile(a: Args, text: string, synced: bool): File {
    File(text, synced, a.uid, 0x180)
  }

  /** The staged token durable, just before the commit. */
  lemma StagedDurably(hash: Hash, a: Args) returns (acts: seq<Act>)
    requires a.accepted && ValidToken(a.token)
    ensures Leads(hash, a, acts,
                  At(Sys(map[], Disk([TokenFile(a, a.token, true)], map[Staged(a.pid) := 0], []), None), a,
                     CreateUser(0)))
  {
    var y0 := Sys(map[], EMPTY_DISK, None);
    acts := Then(hash, a, [], y0, Start(a), At(y0, a, Check));
    assert StagedEntries(EMPTY_DISK) == {};
    acts := Then(hash, a, acts, At(y0, a, Check), Go(FINE), At(y0, a, CreateTemp));
    var name := [Add(Staged(a.pid), 0)];
    var d1 := Disk([TokenFile(a, "", false)], map[], name);
    acts := Then(hash, a, acts, At(y0, a, CreateTemp), Go(FINE), At(y0.(disk := d1), a, WriteTemp(0)));
    var d2 := Disk([TokenFile(a, a.token, false)], map[], name);
    assert d1.files[0 := TokenFile(a, a.token, false)] == d2.files;
    acts := Then(hash, a, acts, At(y0.(disk := d1), a, WriteTemp(0)), Go(FINE), At(y0.(disk := d2), a, SyncTemp(0)));
    var d3 := Disk([TokenFile(a, a.token, true)], map[], name);
    assert d2.files[0 := TokenFile(a, a.token, true)] == d3.files;
    acts := Then(hash, a, acts, At(y0.(disk := d2), a, SyncTemp(0)), Go(FINE), At(y0.(disk := d3), a, SyncStaging(0)));
    assert Entries(d3, 1) == ApplyOp(Entries(d3, 0), name[0]) == map[Staged(a.pid) := 0];
    acts := Then(hash, a, acts, At(y0.(disk := d3), a, SyncStaging(0)), Go(FINE),
                 At(y0.(disk := Disk(d3.files, map[Staged(a.pid) := 0], [])), a, CreateUser(0)));
  }

  /** Committed, and the credential linked. */
  lemma Linked(hash: Hash, a: Args) returns (acts: seq<Act>)
    requires a.accepted && ValidToken(a.token)
    ensures Leads(hash, a, acts, At(Sys(CommittedRow(hash, a), LinkedDisk(a), None), a, UnlinkTemp(0)))
  {
    acts := StagedDurably(hash, a);
    var d0 := Disk([TokenFile(a, a.token, true)], map[Staged(a.pid) := 0], []);
    var y0, y1 := Sys(map[], d0, None), Sys(CommittedRow(hash, a), d0, None);
    acts := Then(hash, a, acts, At(y0, a, CreateUser(0)), Go(FINE), At(y1, a, Link(0)));
    AppendVisible(d0, Add(Final, 0));
    acts := Then(hash, a, acts, At(y1, a, Link(0)), Go(FINE), At(y1.(disk := LinkedDisk(a)), a, UnlinkTemp(0)));
  }

  function CommittedRow(hash: Hash, a: Args): map<string, User> {
    map[a.publicId := User(a.username, hash(a.token), a.workspace)]
  }

  function LinkedDisk(a: Args): Disk {
    Disk([TokenFile(a, a.token, true)], map[Staged(a.pid) := 0], [Add(Final, 0)])
  }

  /**
   Blocked for good: the unlink of the staging name fails, the row is taken back, and the credential
   stays. Every later retry is refused and changes nothing.
   */
  lemma LeftoverCredentialIsReachable(hash: Hash, a: Args) returns (acts: seq<Act>)
    requires a.accepted && ValidToken(a.token)
    ensures forall k :: 0 <= k < |acts| ==> Attempt(acts[k], a)
    ensures var y := Play(hash, Sys(map[], EMPTY_DISK, None), acts);
            Quiet(y) && y.users == map[] && Visible(y.disk) == map[Final := 0] && Blocked(y, a.publicId)
  {
    acts := Linked(hash, a);
    var d1 := LinkedDisk(a);
    var y0, y1 := Sys(map[], d1, None), Sys(CommittedRow(hash, a), d1, None);
    acts := Then(hash, a, acts, At(y1, a, UnlinkTemp(0)), Go(Choice(false, 0, false)), At(y1, a, Compensate));
    assert y1.users - {a.publicId} == map[];
    acts := Then(hash, a, acts, At(y1, a, Compensate), Go(FINE), At(y0, a, Cleanup(false)));
    LinkedVisible(a);
    var d2 := Append(d1, Remove(Staged(a.pid)));
    AppendVisible(d1, Remove(Staged(a.pid)));
    acts := Then(hash, a, acts, At(y0, a, Cleanup(false)), Go(FINE), At(y0.(disk := d2), a, Finished(false)));
  }

  lemma LinkedVisible(a: Args)
    ensures Visible(LinkedDisk(a)) == map[Staged(a.pid) := 0, Final := 0]
  {
    var d := Disk([TokenFile(a, a.token, true)], map[Staged(a.pid) := 0], []);
    AppendVisible(d, Add(Final, 0));
    assert LinkedDisk(a) == Append(d, Add(Final, 0)) && Visible(d) == map[Staged(a.pid) := 0];
  }
}
