/**
 The cgroup tree (cgroup_v2.py). A path is its list of components; the in-memory backend is the
 model of the tree that the repository itself keeps for its tests.
 */
module Cgroups {
  import opened Common
  import opened Wire

  type Path = seq<string>

  const MIB := 1024 * 1024
  const AGGREGATE_MIB := 256

  datatype Fs = Fs(directories: set<Path>, controls: map<Path, string>)

  // ----- what the backend's operations do -----

  function Ancestors(path: Path): set<Path> {
    set k | 0 <= k <= |path| :: path[..k]
  }

  function MkdirFs(fs: Fs, path: Path): Fs {
    fs.(directories := fs.directories + Ancestors(path))
  }

  function WriteFs(fs: Fs, path: Path, value: string): Fs {
    fs.(controls := fs.controls[path := value])
  }

  function RmdirFs(fs: Fs, path: Path): Fs {
    fs.(directories := fs.directories - {path})
  }

  // ----- group creation -----

  function MemoryMax(path: Path): Path {
    path + ["memory.max"]
  }

  /** The `memory.max` of a group in bytes; an unwritten control reads as zero. */
  function MaxBytes(fs: Fs, path: Path): nat {
    if MemoryMax(path) in fs.controls then Value(fs.controls[MemoryMax(path)]) else 0
  }

  function GroupFs(fs: Fs, path: Path, memory: nat, pids: nat): Fs {
    WriteFs(WriteFs(WriteFs(MkdirFs(fs, path),
                            MemoryMax(path), Digits(memory * MIB)),
                    path + ["memory.swap.max"], "0"),
            path + ["pids.max"], Digits(pids))
  }

  function EnableFs(fs: Fs, path: Path): Fs {
    WriteFs(fs, path + ["cgroup.subtree_control"], "+memory +pids")
  }

  function UsersPath(root: Path): Path {
    root + ["users"]
  }

  function UserPath(root: Path, owner: string): Path {
    UsersPath(root) + [owner]
  }

  function CaseName(job: nat, position: nat): string {
    "job-" + (Digits(job) + ("-case-" + Digits(position)))
  }

  function CasePath(root: Path, owner: string, job: nat, position: nat): Path {
    UserPath(root, owner) + [CaseName(job, position)]
  }

  /** The argument checks of `run_group`. */
  predicate RunGroupAccepts(owner: string, job: int, position: int, memory: int, aggregate: int) {
    CanonicalUuid(owner) && 0 < job && 0 < position && 0 < memory && 0 < aggregate && memory <= aggregate
  }

  function RunGroupFs(fs: Fs, root: Path, owner: string, job: nat, position: nat, memory: nat, aggregate: nat): Fs {
    var users := EnableFs(MkdirFs(fs, UsersPath(root)), UsersPath(root));
    var parent := EnableFs(GroupFs(users, UserPath(root, owner), aggregate, 32), UserPath(root, owner));
    GroupFs(parent, CasePath(root, owner, job, position), memory, 8)
  }

  // ----- no two cases share a path -----

  /** The text of a path, as the f-strings build it: every component behind a slash. */
  function Join(path: Path): string {
    if path == [] then "" else Join(path[..|path| - 1]) + ("/" + path[|path| - 1])
  }

  ghost predicate SlashFree(path: Path) {
    forall k :: 0 <= k < |path| ==> '/' !in path[k]
  }

  /** Text ends in one way in a slash and a name without slashes. */
  lemma LastSlash(a: string, x: string, b: string, y: string)
    requires a + ("/" + x) == b + ("/" + y) && '/' !in x && '/' !in y
    ensures a == b && x == y
  {
    var s, t := a + ("/" + x), b + ("/" + y);
    assert s[|a|] == '/' && t[|b|] == '/';
    assert (forall k :: |a| < k < |s| ==> s[k] == x[k - |a| - 1])
           && (forall k :: |b| < k < |t| ==> t[k] == y[k - |b| - 1]);
    assert |a| == |b|;
    assert a == s[..|a|] && b == t[..|b|] && x == s[|a| + 1..] && y == t[|b| + 1..];
  }

  /** Paths of slash-free components are equal exactly when their texts are, so component lists lose nothing. */
  lemma {:induction false} JoinInjective(p: Path, q: Path)
    requires SlashFree(p) && SlashFree(q)
    ensures Join(p) == Join(q) <==> p == q
  {
    if p != [] && q != [] {
      var m, n := |p| - 1, |q| - 1;
      JoinInjective(p[..m], q[..n]);
      if Join(p) == Join(q) {
        LastSlash(Join(p[..m]), p[m], Join(q[..n]), q[n]);
        assert p == p[..m] + [p[m]] && q == q[..n] + [q[n]];
      }
    }
  }

  lemma DashSplits(a: string, b: string, u: string, v: string)
    requires forall k :: 0 <= k < |a| ==> IsDigit(a[k])
    requires forall k :: 0 <= k < |b| ==> IsDigit(b[k])
    requires a + ("-case-" + u) == b + ("-case-" + v)
    ensures a == b && u == v
  {
    var s, t := a + ("-case-" + u), b + ("-case-" + v);
    assert s[|a|] == '-' && t[|b|] == '-';
    assert (forall k :: 0 <= k < |a| ==> s[k] == a[k]) && (forall k :: 0 <= k < |b| ==> t[k] == b[k]);
    assert |a| == |b|;
    assert a == s[..|a|] && b == t[..|b|];
    assert u == s[|a| + 6..] && v == t[|b| + 6..];
  }

  lemma CaseNameInjective(job: nat, position: nat, job': nat, position': nat)
    requires CaseName(job, position) == CaseName(job', position')
    ensures job == job' && position == position'
  {
    DigitsRoundTrip(job);
    DigitsRoundTrip(job');
    DigitsRoundTrip(position);
    DigitsRoundTrip(position');
    assert CaseName(job, position)[4..] == CaseName(job', position')[4..];
    assert CaseName(job, position)[4..] == Digits(job) + ("-case-" + Digits(position));
    assert CaseName(job', position')[4..] == Digits(job') + ("-case-" + Digits(position'));
    DashSplits(Digits(job), Digits(job'), Digits(position), Digits(position'));
  }

  /** Different (owner, job, case) triples never share a path. */
  lemma CasePathInjective(root: Path, owner: string, job: nat, position: nat, owner': string, job': nat, position': nat)
    requires CasePath(root, owner, job, position) == CasePath(root, owner', job', position')
    ensures owner == owner' && job == job' && position == position'
  {
    var p, q := CasePath(root, owner, job, position), CasePath(root, owner', job', position');
    var n := |root|;
    assert p[n + 1] == owner && q[n + 1] == owner';
    assert p[n + 2] == CaseName(job, position) && q[n + 2] == CaseName(job', position');
    CaseNameInjective(job, position, job', position');
  }

  lemma CaseNameSlashFree(job: nat, position: nat)
    ensures '/' !in CaseName(job, position)
  {
    DigitsRoundTrip(job);
    DigitsRoundTrip(position);
  }

  lemma CasePathSlashFree(root: Path, owner: string, job: nat, position: nat)
    requires SlashFree(root) && CanonicalUuid(owner)
    ensures SlashFree(CasePath(root, owner, job, position))
  {
    CaseNameSlashFree(job, position);
    assert '/' !in owner;
  }

  /** On the text the source compares: different triples of a canonical owner, a job and a case never share a path. */
  lemma CaseTextInjective(root: Path, owner: string, job: nat, position: nat, owner': string, job': nat, position': nat)
    requires SlashFree(root) && CanonicalUuid(owner) && CanonicalUuid(owner')
    ensures Join(CasePath(root, owner, job, position)) == Join(CasePath(root, owner', job', position')) <==>
            owner == owner' && job == job' && position == position'
  {
    CasePathSlashFree(root, owner, job, position);
    CasePathSlashFree(root, owner', job', position');
    JoinInjective(CasePath(root, owner, job, position), CasePath(root, owner', job', position'));
    if CasePath(root, owner, job, position) == CasePath(root, owner', job', position') {
      CasePathInjective(root, owner, job, position, owner', job', position');
    }
  }

  // ----- what one run_group changes -----

  /** A group for a single case, directly below some user. */
  predicate CaseLevel(root: Path, path: Path) {
    |path| == |root| + 3 && path[..|root| + 1] == UsersPath(root)
  }

  lemma LastNameDiffers(p: Path, a: string, q: Path, b: string)
    requires a != b
    ensures p + [a] != q + [b]
  {
    var x, y := p + [a], q + [b];
    assert x[|x| - 1] == a && y[|y| - 1] == b;
  }

  lemma ParentDiffers(p: Path, a: string, q: Path, b: string)
    requires p != q
    ensures p + [a] != q + [b]
  {
    var x, y := p + [a], q + [b];
    assert x[..|x| - 1] == p && y[..|y| - 1] == q;
  }

  /** Delegating controllers touches no limit. */
  lemma EnableKeepsLimits(fs: Fs, path: Path, p: Path)
    ensures MaxBytes(EnableFs(fs, path), p) == MaxBytes(fs, p)
  {
    LastNameDiffers(p, "memory.max", path, "cgroup.subtree_control");
  }

  /** A group sets its own limit and no other. */
  lemma GroupSetsOneLimit(fs: Fs, path: Path, memory: nat, pids: nat, p: Path)
    ensures MaxBytes(GroupFs(fs, path, memory, pids), p) == if p == path then memory * MIB else MaxBytes(fs, p)
  {
    DigitsRoundTrip(memory * MIB);
    LastNameDiffers(p, "memory.max", path, "memory.swap.max");
    LastNameDiffers(p, "memory.max", path, "pids.max");
    if p != path {
      ParentDiffers(p, "memory.max", path, "memory.max");
    }
  }

  /** The limits after `run_group`: the case's, the parent's, and all others as before. */
  lemma RunGroupLimits(fs: Fs, root: Path, owner: string, job: nat, position: nat, memory: nat, aggregate: nat, p: Path)
    ensures MaxBytes(RunGroupFs(fs, root, owner, job, position, memory, aggregate), p) ==
            if p == CasePath(root, owner, job, position) then memory * MIB
            else if p == UserPath(root, owner) then aggregate * MIB
            else MaxBytes(fs, p)
  {
    var made := MkdirFs(fs, UsersPath(root));
    var users := EnableFs(made, UsersPath(root));
    var group := GroupFs(users, UserPath(root, owner), aggregate, 32);
    var parent := EnableFs(group, UserPath(root, owner));
    EnableKeepsLimits(made, UsersPath(root), p);
    GroupSetsOneLimit(users, UserPath(root, owner), aggregate, 32, p);
    EnableKeepsLimits(group, UserPath(root, owner), p);
    GroupSetsOneLimit(parent, CasePath(root, owner, job, position), memory, 8, p);
    assert |CasePath(root, owner, job, position)| == |UserPath(root, owner)| + 1;
  }

  /** The text of a control; none if it was never written. */
  function Control(fs: Fs, p: Path): Option<string> {
    if p in fs.controls then Some(fs.controls[p]) else None
  }

  /** Eight controls are written, each once: three limits of the case, three of its user, and two delegations. */
  function ControlAfter(fs: Fs, root: Path, owner: string, job: nat, position: nat, memory: nat, aggregate: nat,
                        p: Path): Option<string>
  {
    var users, user := root + ["users"], root + ["users", owner];
    var path := user + ["job-" + Digits(job) + "-case-" + Digits(position)];
    if p == path + ["memory.max"] then Some(Digits(memory * 1_048_576))
    else if p == path + ["memory.swap.max"] then Some("0")
    else if p == path + ["pids.max"] then Some("8")
    else if p == user + ["memory.max"] then Some(Digits(aggregate * 1_048_576))
    else if p == user + ["memory.swap.max"] then Some("0")
    else if p == user + ["pids.max"] then Some("32")
    else if p == user + ["cgroup.subtree_control"] then Some("+memory +pids")
    else if p == users + ["cgroup.subtree_control"] then Some("+memory +pids")
    else Control(fs, p)
  }

  lemma ThreeWrites(fs: Fs, path: Path, a: string, b: string, c: string, p: Path)
    ensures Control(WriteFs(WriteFs(WriteFs(fs, path + ["memory.max"], a), path + ["memory.swap.max"], b),
                            path + ["pids.max"], c), p) ==
            if p == path + ["memory.max"] then Some(a)
            else if p == path + ["memory.swap.max"] then Some(b)
            else if p == path + ["pids.max"] then Some(c)
            else Control(fs, p)
  {
    LastNameDiffers(path, "memory.max", path, "memory.swap.max");
    LastNameDiffers(path, "memory.max", path, "pids.max");
    LastNameDiffers(path, "memory.swap.max", path, "pids.max");
  }

  /** One group: its three limits and no other control. */
  lemma GroupControls(fs: Fs, path: Path, memory: nat, pids: nat, p: Path)
    ensures Control(GroupFs(fs, path, memory, pids), p) ==
            if p == path + ["memory.max"] then Some(Digits(memory * 1_048_576))
            else if p == path + ["memory.swap.max"] then Some("0")
            else if p == path + ["pids.max"] then Some(Digits(pids))
            else Control(fs, p)
  {
    ThreeWrites(MkdirFs(fs, path), path, Digits(memory * 1_048_576), "0", Digits(pids), p);
    assert Control(MkdirFs(fs, path), p) == Control(fs, p);
  }

  /** Its directory, and those above it. */
  lemma GroupDirectories(fs: Fs, path: Path, memory: nat, pids: nat, p: Path)
    ensures p in GroupFs(fs, path, memory, pids).directories <==> p in fs.directories || p <= path
  {
    assert p <= path ==> p == path[..|p|];
  }

  /** The whole tree after `run_group`: the controls written, and the case's directory with those above it. */
  lemma RunGroupTree(fs: Fs, root: Path, owner: string, job: nat, position: nat, memory: nat, aggregate: nat, p: Path)
    ensures var fs' := RunGroupFs(fs, root, owner, job, position, memory, aggregate);
            && Control(fs', p) == ControlAfter(fs, root, owner, job, position, memory, aggregate, p)
            && (p in fs'.directories <==>
                p in fs.directories || p <= root + ["users", owner, "job-" + Digits(job) + "-case-" + Digits(position)])
  {
    var users, user, path := UsersPath(root), UserPath(root, owner), CasePath(root, owner, job, position);
    assert users == root + ["users"] && user == root + ["users", owner];
    CaseNameText(job, position);
    assert path == root + ["users", owner, "job-" + Digits(job) + "-case-" + Digits(position)];
    var enabled := EnableFs(MkdirFs(fs, users), users);
    var group := GroupFs(enabled, user, aggregate, 32);
    GroupControls(enabled, user, aggregate, 32, p);
    GroupControls(EnableFs(group, user), path, memory, 8, p);
    GroupDirectories(enabled, user, aggregate, 32, p);
    GroupDirectories(EnableFs(group, user), path, memory, 8, p);
    LastNameDiffers(user, "memory.max", user, "cgroup.subtree_control");
    LastNameDiffers(user, "memory.swap.max", user, "cgroup.subtree_control");
    LastNameDiffers(user, "pids.max", user, "cgroup.subtree_control");
    assert p <= users ==> p == users[..|p|] && p <= path;
    assert p <= user ==> p <= path;
  }

  lemma CaseNameText(job: nat, position: nat)
    ensures CaseName(job, position) == "job-" + Digits(job) + "-case-" + Digits(position)
    ensures Digits(8) == "8" && Digits(32) == "32"
  {
    assert Digits(3) == "3";
  }

  lemma WholeTree(fs: Fs, root: Path, owner: string, job: nat, position: nat, memory: nat, aggregate: nat, fs': Fs)
    requires fs' == RunGroupFs(fs, root, owner, job, position, memory, aggregate)
    ensures var path := root + ["users", owner, "job-" + Digits(job) + "-case-" + Digits(position)];
            && CasePath(root, owner, job, position) == path
            && (forall p :: p in fs'.directories <==> p in fs.directories || p <= path)
            && (forall p :: Control(fs', p) == ControlAfter(fs, root, owner, job, position, memory, aggregate, p))
  {
    CaseNameText(job, position);
    forall p
      ensures Control(fs', p) == ControlAfter(fs, root, owner, job, position, memory, aggregate, p)
      ensures p in fs'.directories <==>
              p in fs.directories || p <= root + ["users", owner, "job-" + Digits(job) + "-case-" + Digits(position)]
    {
      RunGroupTree(fs, root, owner, job, position, memory, aggregate, p);
    }
  }

  /** Of the groups at case level, `run_group` creates exactly one. */
  lemma RunGroupDirectories(fs: Fs, root: Path, owner: string, job: nat, position: nat, memory: nat, aggregate: nat)
    ensures var fs' := RunGroupFs(fs, root, owner, job, position, memory, aggregate);
            var path := CasePath(root, owner, job, position);
            && CaseLevel(root, path) && path in fs'.directories
            && (forall p :: p in fs.directories ==> p in fs'.directories)
            && (forall p :: p in fs'.directories && CaseLevel(root, p) ==> p == path || p in fs.directories)
  {
    var path := CasePath(root, owner, job, position);
    var fs' := RunGroupFs(fs, root, owner, job, position, memory, aggregate);
    OnlyAncestorsAppear(fs, root, owner, job, position);
    assert fs'.directories
        == fs.directories + Ancestors(UsersPath(root)) + Ancestors(UserPath(root, owner)) + Ancestors(path);
  }

  lemma OnlyAncestorsAppear(fs: Fs, root: Path, owner: string, job: nat, position: nat)
    ensures var path := CasePath(root, owner, job, position);
            && CaseLevel(root, path) && path in Ancestors(path)
            && forall p ::
                 CaseLevel(root, p)
                 && (p in Ancestors(UsersPath(root)) || p in Ancestors(UserPath(root, owner))
                     || p in Ancestors(path)) ==>
                   p == path
  {
    var path := CasePath(root, owner, job, position);
    assert path[..|path|] == path;
    assert path[..|root| + 1] == UsersPath(root);
  }

  // ----- the backend and the manager -----

  class MemoryCgroupFilesystem {
    var directories: set<Path>
    var controls: map<Path, string>
    var writeLog: map<Path, seq<string>>
    var memberMap: map<Path, seq<int>>
    var killed: seq<(int, int)>

    ghost function View(): Fs
      reads this
    {
      Fs(directories, controls)
    }

    constructor ()
      ensures View() == Fs({}, map[]) && writeLog == map[] && memberMap == map[] && killed == []
    {
      directories, controls, writeLog, memberMap, killed := {}, map[], map[], map[], [];
    }

    method Mkdir(path: Path)
      modifies this`directories
      ensures View() == MkdirFs(old(View()), path)
    {
      var k := |path|;
      directories := directories + {path[..k]};
      while k > 0
        invariant 0 <= k <= |path|
        invariant directories == old(directories) + set j | k <= j <= |path| :: path[..j]
      {
        k := k - 1;
        directories := directories + {path[..k]};
      }
    }

    method Write(path: Path, value: string)
      modifies this`controls, this`writeLog
      ensures View() == WriteFs(old(View()), path, value)
      ensures writeLog == old(writeLog)[path := (if path in old(writeLog) then old(writeLog)[path] else []) + [value]]
    {
      writeLog := writeLog[path := (if path in writeLog then writeLog[path] else []) + [value]];
      controls := controls[path := value];
    }

    method Kill(pid: int, signal: int)
      modifies this`killed
      ensures killed == old(killed) + [(pid, signal)]
    {
      killed := killed + [(pid, signal)];
    }

    method Rmdir(path: Path)
      modifies this`directories
      ensures View() == RmdirFs(old(View()), path)
    {
      directories := directories - {path};
    }
  }

  const SIGKILL := 9

  function Signalled(pids: seq<int>): seq<(int, int)> {
    seq(|pids|, k requires 0 <= k < |pids| => (pids[k], SIGKILL))
  }

  class CgroupManager {
    const root: Path
    const filesystem: MemoryCgroupFilesystem

    constructor (root: Path, filesystem: MemoryCgroupFilesystem)
      ensures this.root == root && this.filesystem == filesystem
    {
      this.root := root;
      this.filesystem := filesystem;
    }

    /** `_group`: refused on a size that is not positive, before anything is written. */
    method Group(path: Path, memory: int, pids: int) returns (ok: bool)
      modifies filesystem
      ensures ok <==> 0 < memory && 0 < pids
      ensures filesystem.View() == if ok then GroupFs(old(filesystem.View()), path, memory, pids)
                                   else old(filesystem.View())
    {
      if memory <= 0 || pids <= 0 {
        return false;
      }
      ok := true;
      filesystem.Mkdir(path);
      filesystem.Write(path + ["memory.max"], Digits(memory * MIB));
      filesystem.Write(path + ["memory.swap.max"], "0");
      filesystem.Write(path + ["pids.max"], Digits(pids));
    }

    /** `run_group`: refused on bad arguments before anything is written, else the whole chain of groups. */
    method RunGroup(owner: string, job: int, position: int, memory: int, aggregate: int) returns (r: Option<Path>)
      modifies filesystem
      ensures r.Some? <==>
              CanonicalUuid(owner) && 0 < job && 0 < position && 0 < memory && 0 < aggregate && memory <= aggregate
      ensures r.None? ==> filesystem.View() == old(filesystem.View())
      ensures r.Some? ==>
                && r.value == root + ["users", owner, "job-" + Digits(job) + "-case-" + Digits(position)]
                && (forall p :: p in filesystem.directories <==> p in old(filesystem.directories) || p <= r.value)
                && forall p :: Control(filesystem.View(), p) ==
                               ControlAfter(old(filesystem.View()), root, owner, job, position, memory, aggregate, p)
      ensures r.Some? ==>
                && r.value == CasePath(root, owner, job, position) && r.value in filesystem.directories
                && filesystem.View() == RunGroupFs(old(filesystem.View()), root, owner, job, position, memory,
                                                   aggregate)
                && MaxBytes(filesystem.View(), r.value) == memory * MIB
                && MaxBytes(filesystem.View(), UserPath(root, owner)) == aggregate * MIB
    {
      if !CanonicalUuid(owner) || job <= 0 || position <= 0 || memory <= 0 || aggregate <= 0 {
        return None;
      }
      if memory > aggregate {
        return None;
      }
      RunGroupDirectories(filesystem.View(), root, owner, job, position, memory, aggregate);
      RunGroupLimits(filesystem.View(), root, owner, job, position, memory, aggregate,
                     CasePath(root, owner, job, position));
      RunGroupLimits(filesystem.View(), root, owner, job, position, memory, aggregate, UserPath(root, owner));
      assert |CasePath(root, owner, job, position)| == |UserPath(root, owner)| + 1;
      ghost var before := filesystem.View();
      ghost var after := RunGroupFs(before, root, owner, job, position, memory, aggregate);
      WholeTree(before, root, owner, job, position, memory, aggregate, after);
      var users := root + ["users"];
      filesystem.Mkdir(users);
      filesystem.Write(users + ["cgroup.subtree_control"], "+memory +pids");
      var parent := users + [owner];
      var made := Group(parent, aggregate, 32);
      filesystem.Write(parent + ["cgroup.subtree_control"], "+memory +pids");
      var path := parent + [CaseName(job, position)];
      made := Group(path, memory, 8);
      r := Some(path);
    }

    /** `ProcessCgroup.close`: kill through `cgroup.kill` where it exists, else every member, then remove. */
    method Close(path: Path)
      modifies filesystem
      ensures filesystem.directories == old(filesystem.directories) - {path}
      ensures var kill := path + ["cgroup.kill"];
              var members := if path in old(filesystem.memberMap) then old(filesystem.memberMap)[path] else [];
              if kill in old(filesystem.directories) || kill in old(filesystem.controls) then
                filesystem.controls == old(filesystem.controls)[kill := "1"]
                && filesystem.killed == old(filesystem.killed)
              else
                && filesystem.controls == old(filesystem.controls)
                && filesystem.killed == old(filesystem.killed) + Signalled(members)
    {
      var kill := path + ["cgroup.kill"];
      if kill in filesystem.directories || kill in filesystem.controls {
        filesystem.Write(kill, "1");
      } else {
        var members := if path in filesystem.memberMap then filesystem.memberMap[path] else [];
        var k := 0;
        while k < |members|
          invariant 0 <= k <= |members|
          invariant filesystem.killed == old(filesystem.killed) + Signalled(members[..k])
          invariant filesystem.View() == old(filesystem.View())
          invariant filesystem.memberMap == old(filesystem.memberMap)
        {
          filesystem.Kill(members[k], SIGKILL);
          assert Signalled(members[..k + 1]) == Signalled(members[..k]) + [(members[k], SIGKILL)];
          k := k + 1;
        }
        assert members[..k] == members;
      }
      filesystem.Rmdir(path);
    }
  }
}
