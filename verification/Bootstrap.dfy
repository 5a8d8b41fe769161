/**
 Offline bootstrap of one instance (cli.py) as a crash-recovery protocol. The credential directory
 is what is durable plus a list of pending entry operations; a crash keeps any prefix of the list,
 and any prefix of a file that was not synced. One bootstrap runs at a time, the database commits
 durably, and its insert raises only if nothing was committed.
 */
module Bootstrap {
  import opened Common

  /** The entries of this instance in the credential directory: the credential and `.<id>.token.<pid>`. */
  datatype Entry = Final | Staged(pid: nat)

  datatype File = File(text: string, synced: bool, owner: nat, mode: nat)

  datatype DirOp = Add(name: Entry, inode: nat) | Remove(gone: Entry)

  datatype Disk = Disk(files: seq<File>, durable: map<Entry, nat>, pending: seq<DirOp>)

  datatype User = User(username: string, tokenHash: string, workspace: string)

  /** Everything a run is given; `accepted` sums up the roster, password and workspace image checks. */
  datatype Args = Args(publicId: string, username: string, workspace: string, accepted: bool, uid: nat, pid: nat,
                       token: string)

  type Hash = string -> string

  // ----- the directory -----

  function ApplyOp(entries: map<Entry, nat>, op: DirOp): map<Entry, nat> {
    match op
    case Add(n, i) => entries[n := i]
    case Remove(n) => entries - {n}
  }

  /** The directory if exactly the first k pending operations survive. */
  function Entries(d: Disk, k: nat): map<Entry, nat>
    requires k <= |d.pending|
  {
    if k == 0 then d.durable else ApplyOp(Entries(d, k - 1), d.pending[k - 1])
  }

  /** The directory the running system sees. */
  function Visible(d: Disk): map<Entry, nat> {
    Entries(d, |d.pending|)
  }

  function Append(d: Disk, op: DirOp): Disk {
    d.(pending := d.pending + [op])
  }

  /** fsync of the directory. */
  function Flush(d: Disk): Disk {
    d.(durable := Visible(d), pending := [])
  }

  /** What is left after a power loss. */
  function AfterCrash(d: Disk, keep: nat, cut: nat -> nat): Disk {
    Disk(seq(|d.files|, i requires 0 <= i < |d.files| =>
           if d.files[i].synced then d.files[i]
           else d.files[i].(text := d.files[i].text[..Min(cut(i), |d.files[i].text|)], synced := true)),
         Entries(d, Min(keep, |d.pending|)), [])
  }

  function StagedEntries(d: Disk): set<Entry> {
    set n | n in Visible(d) && n.Staged?
  }

  predicate Bound(d: Disk, n: Entry) {
    n in Visible(d) && Visible(d)[n] < |d.files|
  }

  function FileOf(d: Disk, n: Entry): File
    requires Bound(d, n)
  {
    d.files[Visible(d)[n]]
  }

  /** `_read_safe_bootstrap_credential` succeeds. */
  predicate Readable(d: Disk, n: Entry, uid: nat) {
    Bound(d, n) && FileOf(d, n).owner == uid && (FileOf(d, n).mode == 0x100 || FileOf(d, n).mode == 0x180)
    && FileOf(d, n).text != ""
  }

  predicate Matches(d: Disk, n: Entry, uid: nat, hash: Hash, h: string) {
    Readable(d, n, uid) && hash(FileOf(d, n).text) == h
  }

  // ----- the program -----

  /** Where a run is. The reads at the start are one step: nothing else writes meanwhile. */
  datatype Pc =
    | Check
    | UnlinkOrphan(orphan: Entry) | SyncOrphan
    | CreateTemp | WriteTemp(inode: nat) | SyncTemp(inode: nat) | SyncStaging(inode: nat) | CreateUser(inode: nat)
    | Link(inode: nat) | UnlinkTemp(inode: nat) | Compensate | SyncPublished
    | Cleanup(result: bool)
    | RecoverLink(staged: Entry) | RecoverUnlink(staged: Entry) | RecoverSync
    | Finished(ok: bool)

  datatype Proc = Proc(args: Args, pc: Pc)

  datatype Sys = Sys(users: map<string, User>, disk: Disk, proc: Option<Proc>)

  /**
   How one step goes: whether the call succeeds, how much of a failed write remains, whether a failed
   delete committed.
   */
  datatype Choice = Choice(ok: bool, cut: nat, gone: bool)

  datatype Act = Start(args: Args) | Go(choice: Choice) | Crash(keep: nat, cut: nat -> nat)

  predicate NameHeldElsewhere(users: map<string, User>, a: Args) {
    exists id :: id in users && id != a.publicId && users[id].username == a.username
  }

  /** The decision taken from what the run reads at the start. */
  ghost function Decide(hash: Hash, users: map<string, User>, d: Disk, a: Args): Pc {
    var staged := StagedEntries(d);
    if !a.accepted then Finished(false)
    else if a.publicId in users || NameHeldElsewhere(users, a) then
      if a.publicId !in users || users[a.publicId].username != a.username || users[a.publicId].workspace != a.workspace
      then Finished(false)
      else if |staged| > 1 then Finished(false)
        else
          var h := users[a.publicId].tokenHash;
          if Final in Visible(d) then
            if !Matches(d, Final, a.uid, hash, h) then Finished(false)
            else if staged == {} then RecoverSync
            else
              var n :| n in staged;
              if Matches(d, n, a.uid, hash, h) then RecoverUnlink(n) else Finished(false)
          else if |staged| != 1 then Finished(false)
          else
            var n :| n in staged;
            if Matches(d, n, a.uid, hash, h) then RecoverLink(n) else Finished(false)
    else if Final in Visible(d) then Finished(false)
    else if staged == {} then CreateTemp
    else if |staged| != 1 then Finished(false)
    else
      var n :| n in staged;
      if Readable(d, n, a.uid) then UnlinkOrphan(n) else Finished(false)
  }

  function At(y: Sys, a: Args, pc: Pc): Sys {
    y.(proc := Some(Proc(a, pc)))
  }

  /** One operation of a run. A failing call raises: into the cleanup once the staging file exists. */
  ghost function Advance(hash: Hash, y: Sys, a: Args, pc: Pc, c: Choice): Sys {
    var d := y.disk;
    match pc
    case Check => At(y, a, Decide(hash, y.users, d, a))
    case UnlinkOrphan(n) =>
      if c.ok then At(y.(disk := Append(d, Remove(n))), a, SyncOrphan) else At(y, a, Finished(false))
    case SyncOrphan =>
      if c.ok then At(y.(disk := Flush(d)), a, CreateTemp) else At(y, a, Finished(false))
    case CreateTemp =>
      if c.ok && Staged(a.pid) !in Visible(d) then
        var d' := d.(files := d.files + [File("", false, a.uid, 0x180)]);
        At(y.(disk := Append(d', Add(Staged(a.pid), |d.files|))), a, WriteTemp(|d.files|))
      else At(y, a, Finished(false))
    case WriteTemp(i) =>
      if i >= |d.files| then At(y, a, pc)
      else if c.ok then At(y.(disk := d.(files := d.files[i := d.files[i].(text := a.token)])), a, SyncTemp(i))
      else At(y.(disk := d.(files := d.files[i := d.files[i].(text := a.token[..Min(c.cut, |a.token|)])])), a,
              Cleanup(false))
    case SyncTemp(i) =>
      if i >= |d.files| then At(y, a, pc)
      else if c.ok then At(y.(disk := d.(files := d.files[i := d.files[i].(synced := true)])), a, SyncStaging(i))
      else At(y, a, Cleanup(false))
    case SyncStaging(i) =>
      if c.ok then At(y.(disk := Flush(d)), a, CreateUser(i)) else At(y, a, Cleanup(false))
    case CreateUser(i) =>
      if c.ok && a.publicId !in y.users && !NameHeldElsewhere(y.users, a) then
        At(y.(users := y.users[a.publicId := User(a.username, hash(a.token), a.workspace)]), a, Link(i))
      else At(y, a, Cleanup(false))
    case Link(i) =>
      if c.ok && Final !in Visible(d) then At(y.(disk := Append(d, Add(Final, i))), a, UnlinkTemp(i))
      else At(y, a, Compensate)
    case UnlinkTemp(i) =>
      if c.ok then At(y.(disk := Append(d, Remove(Staged(a.pid)))), a, SyncPublished) else At(y, a, Compensate)
    case Compensate =>
      if c.ok then At(y.(users := y.users - {a.publicId}), a, Cleanup(false))
      else At(if c.gone then y.(users := y.users - {a.publicId}) else y, a, Finished(false))
    case SyncPublished =>
      if c.ok then At(y.(disk := Flush(d)), a, Cleanup(true)) else At(y, a, Cleanup(false))
    case Cleanup(result) =>
      if Staged(a.pid) !in Visible(d) then At(y, a, Finished(result))
      else if c.ok then At(y.(disk := Append(d, Remove(Staged(a.pid)))), a, Finished(result))
      else At(y, a, Finished(false))
    case RecoverLink(n) =>
      if c.ok && Final !in Visible(d) && n in Visible(d) then
        At(y.(disk := Append(d, Add(Final, Visible(d)[n]))), a, RecoverUnlink(n))
      else At(y, a, Finished(false))
    case RecoverUnlink(n) =>
      if c.ok then At(y.(disk := Append(d, Remove(n))), a, RecoverSync) else At(y, a, Finished(false))
    case RecoverSync =>
      if c.ok then At(y.(disk := Flush(d)), a, Finished(true)) else At(y, a, Finished(false))
    case Finished(ok) => At(y, a, pc)
  }

  predicate Quiet(y: Sys) {
    y.proc.None? || y.proc.value.pc.Finished?
  }

  ghost function Do(hash: Hash, y: Sys, act: Act): Sys {
    match act
    case Start(a) => if Quiet(y) then At(y, a, Check) else y
    case Go(c) => if y.proc.Some? then Advance(hash, y, y.proc.value.args, y.proc.value.pc, c) else y
    case Crash(keep, cut) => Sys(y.users, AfterCrash(y.disk, keep, cut), None)
  }

  ghost function Play(hash: Hash, y: Sys, acts: seq<Act>): Sys
    decreases |acts|
  {
    if acts == [] then y else Play(hash, Do(hash, y, acts[0]), acts[1..])
  }

  // ----- the invariant -----

  /** The characters `str.strip` removes: Unicode white space and the four information separators. */
  predicate Space(c: char) {
    var n := c as int;
    || 0x09 <= n <= 0x0D || 0x1C <= n <= 0x20 || n == 0x85 || n == 0xA0 || n == 0x1680
    || 0x2000 <= n <= 0x200A || n == 0x2028 || n == 0x2029 || n == 0x202F || n == 0x205F || n == 0x3000
  }

  /** A token as the factory makes it: not empty, no surrounding whitespace. */
  predicate ValidToken(t: string) {
    t != "" && !Space(t[0]) && !Space(t[|t| - 1])
  }

  predicate InodesValid(d: Disk, entries: map<Entry, nat>) {
    forall n :: n in entries ==> entries[n] < |d.files|
  }

  /** At most one staging file. */
  predicate OneStaged(entries: map<Entry, nat>) {
    forall m, n :: m in entries && n in entries && m.Staged? && n.Staged? ==> m == n
  }

  predicate CommittedFile(hash: Hash, f: File, h: string) {
    f.synced && hash(f.text) == h && ValidToken(f.text)
  }

  /** Some token is on disk, and every token on disk is durable and is the committed one. */
  ghost predicate Backed(hash: Hash, d: Disk, entries: map<Entry, nat>, h: string) {
    && entries != map[]
    && forall n :: n in entries ==> entries[n] < |d.files| && CommittedFile(hash, d.files[entries[n]], h)
  }

  /** What holds of the directory in one possible aftermath. */
  ghost predicate Sane(hash: Hash, users: map<string, User>, d: Disk, id: string, entries: map<Entry, nat>) {
    InodesValid(d, entries) && OneStaged(entries) && (id in users ==> Backed(hash, d, entries, users[id].tokenHash))
  }

  /** ... and in every possible aftermath of a crash at this moment. */
  ghost predicate Durable(hash: Hash, y: Sys, id: string) {
    forall k: nat :: k <= |y.disk.pending| ==> Sane(hash, y.users, y.disk, id, Entries(y.disk, k))
  }

  /** What a run knows at each point. */
  ghost predicate Knows(hash: Hash, y: Sys, a: Args, pc: Pc) {
    var v := Visible(y.disk);
    match pc
    case Check => true
    case UnlinkOrphan(n) => a.publicId !in y.users && v.Keys == {n} && n.Staged?
    case SyncOrphan => a.publicId !in y.users && v.Keys == {}
    case CreateTemp => a.publicId !in y.users && v.Keys == {}
    case WriteTemp(i) => a.publicId !in y.users && v == map[Staged(a.pid) := i]
    case SyncTemp(i) => a.publicId !in y.users && v == map[Staged(a.pid) := i] && i < |y.disk.files|
                        && y.disk.files[i].text == a.token
    case SyncStaging(i) =>
      a.publicId !in y.users && v == map[Staged(a.pid) := i] && i < |y.disk.files| && y.disk.files[i].text == a.token
      && y.disk.files[i].synced
    case CreateUser(i) =>
      a.publicId !in y.users && v == map[Staged(a.pid) := i] && i < |y.disk.files| && y.disk.files[i].text == a.token
      && y.disk.files[i].synced && y.disk.pending == []
    case Link(i) => a.publicId in y.users && v == map[Staged(a.pid) := i]
    case UnlinkTemp(i) => a.publicId in y.users && v == map[Staged(a.pid) := i, Final := i]
    case Compensate => true
    case SyncPublished => a.publicId in y.users && v.Keys == {Final}
    case Cleanup(result) =>
      && (a.publicId in y.users ==> Staged(a.pid) !in v)
      && (result ==> a.publicId in y.users && v.Keys == {Final} && y.disk.pending == [])
    case RecoverLink(n) => a.publicId in y.users && n.Staged? && v.Keys == {n}
    case RecoverUnlink(n) => a.publicId in y.users && n.Staged? && v.Keys == {n, Final}
    case RecoverSync => a.publicId in y.users && v.Keys == {Final}
    case Finished(ok) => ok ==> a.publicId in y.users && v.Keys == {Final} && y.disk.pending == []
  }

  ghost predicate Inv(hash: Hash, y: Sys, id: string) {
    && Durable(hash, y, id)
    && (y.proc.Some? ==>
          y.proc.value.args.publicId == id && ValidToken(y.proc.value.args.token)
          && Knows(hash, y, y.proc.value.args, y.proc.value.pc))
  }

  /** Runs for this instance, with a token factory that keeps its word. */
  predicate ActFor(act: Act, id: string) {
    act.Start? ==> act.args.publicId == id && ValidToken(act.args.token)
  }

  // ----- directory lemmas -----

  lemma {:induction false} PrefixKept(d: Disk, op: DirOp, k: nat)
    requires k <= |d.pending|
    ensures Entries(Append(d, op), k) == Entries(d, k)
  {
    if k > 0 {
      PrefixKept(d, op, k - 1);
    }
  }

  lemma {:induction false} FilesDontMatter(d: Disk, files: seq<File>, k: nat)
    requires k <= |d.pending|
    ensures Entries(d.(files := files), k) == Entries(d, k)
  {
    if k > 0 {
      FilesDontMatter(d, files, k - 1);
    }
  }

  lemma AppendVisible(d: Disk, op: DirOp)
    ensures Visible(Append(d, op)) == ApplyOp(Visible(d), op)
  {
    PrefixKept(d, op, |d.pending|);
  }

  /** Appending an operation keeps durability if the new visible directory is sane. */
  lemma AppendDurable(hash: Hash, y: Sys, id: string, op: DirOp, y': Sys)
    requires Durable(hash, y, id) && y'.users == y.users && y'.disk == Append(y.disk, op)
    requires Sane(hash, y.users, y.disk, id, ApplyOp(Visible(y.disk), op))
    ensures Durable(hash, y', id)
  {
    forall k: nat | k <= |y'.disk.pending|
      ensures Sane(hash, y'.users, y'.disk, id, Entries(y'.disk, k))
    {
      AppendVisible(y.disk, op);
      if k <= |y.disk.pending| {
        PrefixKept(y.disk, op, k);
        assert Sane(hash, y.users, y.disk, id, Entries(y.disk, k));
      }
    }
  }

  lemma FlushDurable(hash: Hash, y: Sys, id: string, y': Sys)
    requires Durable(hash, y, id) && y'.users == y.users && y'.disk == Flush(y.disk)
    ensures Durable(hash, y', id) && Visible(y'.disk) == Visible(y.disk)
  {
    assert Sane(hash, y.users, y.disk, id, Entries(y.disk, |y.disk.pending|));
  }

  lemma CrashDurable(hash: Hash, y: Sys, id: string, keep: nat, cut: nat -> nat)
    requires Durable(hash, y, id)
    ensures Durable(hash, Sys(y.users, AfterCrash(y.disk, keep, cut), None), id)
  {
    var k := Min(keep, |y.disk.pending|);
    assert Sane(hash, y.users, y.disk, id, Entries(y.disk, k));
  }

  lemma StagedAtMostOne(d: Disk)
    requires OneStaged(Visible(d))
    ensures |StagedEntries(d)| <= 1
    ensures forall n :: n in StagedEntries(d) ==> StagedEntries(d) == {n}
  {
    if StagedEntries(d) != {} {
      var n :| n in StagedEntries(d);
      assert StagedEntries(d) == {n};
    }
  }

  lemma DecideKnows(hash: Hash, y: Sys, a: Args)
    requires Durable(hash, y, a.publicId)
    ensures Knows(hash, y, a, Decide(hash, y.users, y.disk, a))
  {
    var d := y.disk;
    assert Sane(hash, y.users, d, a.publicId, Visible(d));
    StagedAtMostOne(d);
    assert forall n :: n in Visible(d) ==> n == Final || n in StagedEntries(d);
  }

  // ----- the invariant is kept -----

  /** A step of a's run ends in a state that is durable and knows what its next point relies on. */
  ghost predicate Lands(hash: Hash, y: Sys, a: Args) {
    y.proc.Some? && y.proc.value.args == a && Durable(hash, y, a.publicId) && Knows(hash, y, a, y.proc.value.pc)
  }

  lemma NewFileDurable(hash: Hash, y: Sys, a: Args, y': Sys)
    requires Durable(hash, y, a.publicId) && Knows(hash, y, a, CreateTemp)
    requires y'.users == y.users
    requires y'.disk == Append(y.disk.(files := y.disk.files + [File("", false, a.uid, 0x180)]),
                               Add(Staged(a.pid), |y.disk.files|))
    ensures Durable(hash, y', a.publicId)
    ensures Visible(y'.disk) == map[Staged(a.pid) := |y.disk.files|]
  {
    var d := y.disk.(files := y.disk.files + [File("", false, a.uid, 0x180)]);
    var y1 := y.(disk := d);
    forall k: nat | k <= |d.pending|
      ensures Sane(hash, y1.users, d, a.publicId, Entries(d, k))
    {
      FilesDontMatter(y.disk, d.files, k);
      assert Sane(hash, y.users, y.disk, a.publicId, Entries(y.disk, k));
    }
    FilesDontMatter(y.disk, d.files, |d.pending|);
    AppendVisible(d, Add(Staged(a.pid), |y.disk.files|));
    AppendDurable(hash, y1, a.publicId, Add(Staged(a.pid), |y.disk.files|), y');
  }

  /** Without a committed row, file contents are free to change. */
  lemma RewriteDurable(hash: Hash, y: Sys, id: string, y': Sys)
    requires Durable(hash, y, id) && id !in y.users && y'.users == y.users
    requires y'.disk == y.disk.(files := y'.disk.files) && |y'.disk.files| == |y.disk.files|
    ensures Durable(hash, y', id) && Visible(y'.disk) == Visible(y.disk)
  {
    forall k: nat | k <= |y'.disk.pending|
      ensures Sane(hash, y'.users, y'.disk, id, Entries(y'.disk, k))
    {
      FilesDontMatter(y.disk, y'.disk.files, k);
      assert Sane(hash, y.users, y.disk, id, Entries(y.disk, k));
    }
    FilesDontMatter(y.disk, y'.disk.files, |y.disk.pending|);
  }

  lemma OrphanLands(hash: Hash, y: Sys, a: Args, pc: Pc, c: Choice)
    requires Durable(hash, y, a.publicId) && Knows(hash, y, a, pc) && (pc.UnlinkOrphan? || pc.SyncOrphan?)
    ensures Lands(hash, Advance(hash, y, a, pc, c), a)
  {
    var y', d := Advance(hash, y, a, pc, c), y.disk;
    assert Sane(hash, y.users, d, a.publicId, Visible(d));
    if c.ok {
      if pc.SyncOrphan? {
        FlushDurable(hash, y, a.publicId, y');
      } else {
        AppendVisible(d, Remove(pc.orphan));
        AppendDurable(hash, y, a.publicId, Remove(pc.orphan), y');
      }
    }
  }

  lemma StagingLands(hash: Hash, y: Sys, a: Args, pc: Pc, c: Choice)
    requires Durable(hash, y, a.publicId) && Knows(hash, y, a, pc)
    requires pc.CreateTemp? || pc.WriteTemp? || pc.SyncTemp? || pc.SyncStaging?
    ensures Lands(hash, Advance(hash, y, a, pc, c), a)
  {
    var y', d := Advance(hash, y, a, pc, c), y.disk;
    assert Sane(hash, y.users, d, a.publicId, Visible(d));
    if pc.CreateTemp? {
      if y'.disk != d {
        NewFileDurable(hash, y, a, y');
      }
    } else if pc.SyncStaging? {
      if c.ok {
        FlushDurable(hash, y, a.publicId, y');
      }
    } else {
      assert Staged(a.pid) in Visible(d);
      RewriteDurable(hash, y, a.publicId, y');
    }
  }

  lemma CommitLands(hash: Hash, y: Sys, a: Args, i: nat, c: Choice)
    requires Durable(hash, y, a.publicId) && Knows(hash, y, a, CreateUser(i)) && ValidToken(a.token)
    ensures Lands(hash, Advance(hash, y, a, CreateUser(i), c), a)
  {
    var y' := Advance(hash, y, a, CreateUser(i), c);
    assert Sane(hash, y.users, y.disk, a.publicId, Visible(y.disk));
    if y'.users != y.users {
      assert Entries(y'.disk, 0) == Visible(y.disk);
      assert Staged(a.pid) in Visible(y.disk);
      assert Sane(hash, y'.users, y'.disk, a.publicId, Entries(y'.disk, 0));
    }
  }

  lemma UncommitDurable(hash: Hash, y: Sys, id: string, y': Sys)
    requires Durable(hash, y, id) && y'.users == y.users - {id} && y'.disk == y.disk
    ensures Durable(hash, y', id)
  {
    forall k: nat | k <= |y'.disk.pending|
      ensures Sane(hash, y'.users, y'.disk, id, Entries(y'.disk, k))
    {
      assert Sane(hash, y.users, y.disk, id, Entries(y.disk, k));
    }
  }

  /** A second name for a committed file, where there was none. */
  lemma LinkDurable(hash: Hash, y: Sys, id: string, n: Entry, y': Sys)
    requires Durable(hash, y, id) && id in y.users && n in Visible(y.disk) && y'.users == y.users
    requires y'.disk == Append(y.disk, Add(Final, Visible(y.disk)[n]))
    ensures Durable(hash, y', id) && Visible(y'.disk) == Visible(y.disk)[Final := Visible(y.disk)[n]]
  {
    var d, op := y.disk, Add(Final, Visible(y.disk)[n]);
    AppendVisible(d, op);
    assert Sane(hash, y.users, d, id, Visible(d));
    assert Sane(hash, y.users, d, id, ApplyOp(Visible(d), op));
    AppendDurable(hash, y, id, op, y');
  }

  /** Dropping a staging name while another committed name remains, or while nothing is committed. */
  lemma UnlinkDurable(hash: Hash, y: Sys, id: string, n: Entry, y': Sys)
    requires Durable(hash, y, id) && y'.users == y.users && y'.disk == Append(y.disk, Remove(n))
    requires id in y.users ==> n != Final && Final in Visible(y.disk)
    ensures Durable(hash, y', id) && Visible(y'.disk) == Visible(y.disk) - {n}
  {
    var d := y.disk;
    AppendVisible(d, Remove(n));
    assert Sane(hash, y.users, d, id, Visible(d));
    var e := ApplyOp(Visible(d), Remove(n));
    assert id in y.users ==> Final in e;
    assert Sane(hash, y.users, d, id, e);
    AppendDurable(hash, y, id, Remove(n), y');
  }

  lemma PublishLands(hash: Hash, y: Sys, a: Args, pc: Pc, c: Choice)
    requires Durable(hash, y, a.publicId) && Knows(hash, y, a, pc) && (pc.Link? || pc.UnlinkTemp?)
    ensures Lands(hash, Advance(hash, y, a, pc, c), a)
  {
    var y' := Advance(hash, y, a, pc, c);
    if y'.disk != y.disk {
      if pc.Link? {
        LinkDurable(hash, y, a.publicId, Staged(a.pid), y');
      } else {
        UnlinkDurable(hash, y, a.publicId, Staged(a.pid), y');
      }
    }
  }

  lemma EndLands(hash: Hash, y: Sys, a: Args, pc: Pc, c: Choice)
    requires Durable(hash, y, a.publicId) && Knows(hash, y, a, pc)
             && (pc.Compensate? || pc.SyncPublished? || pc.Cleanup?)
    ensures Lands(hash, Advance(hash, y, a, pc, c), a)
  {
    var y' := Advance(hash, y, a, pc, c);
    if pc.Compensate? {
      if y'.users != y.users {
        UncommitDurable(hash, y, a.publicId, y');
      }
    } else if pc.SyncPublished? {
      if c.ok {
        FlushDurable(hash, y, a.publicId, y');
      }
    } else if y'.disk != y.disk {
      UnlinkDurable(hash, y, a.publicId, Staged(a.pid), y');
    }
  }

  lemma RecoverLinkLands(hash: Hash, y: Sys, a: Args, n: Entry, c: Choice)
    requires Durable(hash, y, a.publicId) && Knows(hash, y, a, RecoverLink(n))
    ensures Lands(hash, Advance(hash, y, a, RecoverLink(n), c), a)
  {
    if c.ok && Final !in Visible(y.disk) && n in Visible(y.disk) {
      LinkDurable(hash, y, a.publicId, n, Advance(hash, y, a, RecoverLink(n), c));
    }
  }

  lemma RecoverUnlinkLands(hash: Hash, y: Sys, a: Args, n: Entry, c: Choice)
    requires Durable(hash, y, a.publicId) && Knows(hash, y, a, RecoverUnlink(n))
    ensures Lands(hash, Advance(hash, y, a, RecoverUnlink(n), c), a)
  {
    if c.ok {
      UnlinkDurable(hash, y, a.publicId, n, Advance(hash, y, a, RecoverUnlink(n), c));
    }
  }

  lemma RecoverSyncLands(hash: Hash, y: Sys, a: Args, c: Choice)
    requires Durable(hash, y, a.publicId) && Knows(hash, y, a, RecoverSync)
    ensures Lands(hash, Advance(hash, y, a, RecoverSync, c), a)
  {
    if c.ok {
      FlushDurable(hash, y, a.publicId, Advance(hash, y, a, RecoverSync, c));
    }
  }

  lemma AdvanceLands(hash: Hash, y: Sys, a: Args, pc: Pc, c: Choice)
    requires Durable(hash, y, a.publicId) && Knows(hash, y, a, pc) && ValidToken(a.token)
    ensures Lands(hash, Advance(hash, y, a, pc, c), a)
  {
    if pc.Check? {
      DecideKnows(hash, y, a);
    } else if pc.UnlinkOrphan? || pc.SyncOrphan? {
      OrphanLands(hash, y, a, pc, c);
    } else if pc.CreateTemp? || pc.WriteTemp? || pc.SyncTemp? || pc.SyncStaging? {
      StagingLands(hash, y, a, pc, c);
    } else if pc.CreateUser? {
      CommitLands(hash, y, a, pc.inode, c);
    } else if pc.Link? || pc.UnlinkTemp? {
      PublishLands(hash, y, a, pc, c);
    } else if pc.Compensate? || pc.SyncPublished? || pc.Cleanup? {
      EndLands(hash, y, a, pc, c);
    } else if pc.RecoverLink? {
      RecoverLinkLands(hash, y, a, pc.staged, c);
    } else if pc.RecoverUnlink? {
      RecoverUnlinkLands(hash, y, a, pc.staged, c);
    } else if pc.RecoverSync? {
      RecoverSyncLands(hash, y, a, c);
    }
  }

  lemma InvKept(hash: Hash, y: Sys, id: string, act: Act)
    requires Inv(hash, y, id) && ActFor(act, id)
    ensures Inv(hash, Do(hash, y, act), id)
  {
    if act.Crash? {
      CrashDurable(hash, y, id, act.keep, act.cut);
    } else if act.Go? && y.proc.Some? {
      AdvanceLands(hash, y, y.proc.value.args, y.proc.value.pc, act.choice);
    }
  }

  lemma {:induction false} InvPlay(hash: Hash, y: Sys, id: string, acts: seq<Act>)
    requires Inv(hash, y, id) && forall k :: 0 <= k < |acts| ==> ActFor(acts[k], id)
    ensures Inv(hash, Play(hash, y, acts), id)
    decreases |acts|
  {
    if acts != [] {
      InvKept(hash, y, id, acts[0]);
      InvPlay(hash, Do(hash, y, acts[0]), id, acts[1..]);
    }
  }

  // ----- safety -----

  const EMPTY_DISK := Disk([], map[], [])

  lemma FreshInv(hash: Hash, users: map<string, User>, id: string)
    requires id !in users
    ensures Inv(hash, Sys(users, EMPTY_DISK, None), id)
  {
  }

  /** The committed token is in a file the running system sees, durable and readable back to the stored hash. */
  ghost predicate TokenOnDisk(hash: Hash, y: Sys, id: string) {
    && id in y.users
    && exists n ::
         n in Visible(y.disk) && Bound(y.disk, n) && CommittedFile(hash, FileOf(y.disk, n), y.users[id].tokenHash)
  }

  /**
   Safety over any sequence of runs, failing calls, crashes and retries: a committed row always has
   its token on disk, now and after any crash that could happen now, and there is never more than
   one staging file.
   */
  lemma BootstrapSafety(hash: Hash, users: map<string, User>, id: string, acts: seq<Act>)
    requires id !in users && forall k :: 0 <= k < |acts| ==> ActFor(acts[k], id)
    ensures var y := Play(hash, Sys(users, EMPTY_DISK, None), acts);
            && |StagedEntries(y.disk)| <= 1
            && (id in y.users ==> TokenOnDisk(hash, y, id))
            && (id in y.users ==>
                  forall k: nat :: k <= |y.disk.pending| ==>
                                     Backed(hash, y.disk, Entries(y.disk, k), y.users[id].tokenHash))
  {
    FreshInv(hash, users, id);
    InvPlay(hash, Sys(users, EMPTY_DISK, None), id, acts);
    var y := Play(hash, Sys(users, EMPTY_DISK, None), acts);
    forall k: nat | k <= |y.disk.pending|
      ensures id in y.users ==> Backed(hash, y.disk, Entries(y.disk, k), y.users[id].tokenHash)
    {
      assert Sane(hash, y.users, y.disk, id, Entries(y.disk, k));
    }
    assert Sane(hash, y.users, y.disk, id, Visible(y.disk));
    StagedAtMostOne(y.disk);
    if id in y.users {
      assert Visible(y.disk) != map[];
      var n :| n in Visible(y.disk);
      assert Bound(y.disk, n);
    }
  }

  /** Up to the link there is no credential. */
  lemma NoCredentialYet(hash: Hash, y: Sys, a: Args, pc: Pc)
    requires Knows(hash, y, a, pc) && Final in Visible(y.disk)
    ensures pc.Check? || pc.UnlinkTemp? || pc.Compensate? || pc.SyncPublished? || pc.Cleanup? || pc.RecoverUnlink?
            || pc.RecoverSync? || pc.Finished?
  {
  }

  /** From then on nothing is done to it. */
  lemma CredentialLeftAlone(hash: Hash, y: Sys, a: Args, pc: Pc, c: Choice)
    requires Knows(hash, y, a, pc) && Final in Visible(y.disk)
    ensures var d, d' := y.disk, Advance(hash, y, a, pc, c).disk;
            d'.files == d.files && Final in Visible(d') && Visible(d')[Final] == Visible(d)[Final]
  {
    NoCredentialYet(hash, y, a, pc);
    if pc.UnlinkTemp? || pc.Cleanup? {
      AppendVisible(y.disk, Remove(Staged(a.pid)));
    } else if pc.RecoverUnlink? {
      AppendVisible(y.disk, Remove(pc.staged));
    }
  }

  /** Unless power is lost, an existing credential keeps its file and its content. */
  lemma CredentialNotOverwritten(hash: Hash, y: Sys, id: string, act: Act)
    requires Inv(hash, y, id) && ActFor(act, id) && !act.Crash? && Final in Visible(y.disk)
    ensures var d, d' := y.disk, Do(hash, y, act).disk;
            && Final in Visible(d') && Visible(d')[Final] == Visible(d)[Final]
            && Bound(d, Final) && Bound(d', Final) && FileOf(d', Final) == FileOf(d, Final)
  {
    assert Sane(hash, y.users, y.disk, id, Visible(y.disk));
    if act.Go? && y.proc.Some? {
      CredentialLeftAlone(hash, y, y.proc.value.args, y.proc.value.pc, act.choice);
    }
  }
}
