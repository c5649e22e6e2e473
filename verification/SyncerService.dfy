/** The syncer, processing update replies step by step on its catalogue and its package directory. */
module SyncerService {
  import opened Wrappers
  import opened Floors
  import opened Manifests
  import opened Mirrors

  class Syncer {
    const hostPackages: bool
    var packages: map<Key, StoredPackage>
    var channels: map<Descriptor, ChannelState>
    var versions: map<Descriptor, string>
    var disk: set<string>

    function State(): Mirror
      reads this
    {
      Mirror(packages, channels, versions, disk)
    }

    constructor (hostPackages: bool, channels: map<Descriptor, ChannelState>, versions: map<Descriptor, string>)
      ensures this.hostPackages == hostPackages && State() == Mirror(map[], channels, versions, {})
    {
      this.hostPackages, this.channels, this.versions := hostPackages, channels, versions;
      packages, disk := map[], {};
    }

    /** `cleanupDownloadedFiles`. */
    method CleanupDownloadedFiles(filenames: seq<string>)
      modifies this`disk
      ensures disk == old(disk) - (Names(filenames) - {""})
    {
      for k := 0 to |filenames|
        invariant disk == old(disk) - (Names(filenames[..k]) - {""})
      {
        PrefixGrows(filenames, k + 1);
        if filenames[k] == "" {
          continue;
        }
        disk := disk - {filenames[k]};
      }
      assert filenames[..|filenames|] == filenames;
    }

    /** The download of one file; it appears under its name only when everything succeeded. */
    method DownloadPackage(filename: string, succeeds: bool)
      modifies this`disk
      ensures disk == if succeeds then old(disk) + {filename} else old(disk)
    {
      if succeeds {
        disk := disk + {filename};
      }
    }

    /** `processExtraFiles`: the extra files of a manifest, downloaded one by one when hosting. */
    method ProcessExtraFiles(arch: string, m: Manifest, luck: Luck)
      returns (files: seq<File>, downloaded: seq<string>, ok: bool)
      requires m.packages != []
      modifies this`disk
      ensures ok <==> hostPackages ==> luck.downloads >= |m.packages| - 1
      ensures ok ==> files == ExtraFiles(hostPackages, arch, m)
      ensures ok ==> downloaded == if hostPackages then DownloadNames(arch, m)[..|m.packages| - 1] else []
      ensures ok ==> disk == old(disk) + Names(downloaded)
      ensures !ok ==> disk == old(disk) - Names(DownloadNames(arch, m)[..luck.downloads])
    {
      files, downloaded := [], [];
      var names := DownloadNames(arch, m);
      for i := 1 to |m.packages|
        invariant files == ExtraFiles(hostPackages, arch, m)[..i - 1]
        invariant hostPackages ==> luck.downloads >= i - 1
        invariant downloaded == if hostPackages then names[..i - 1] else []
        invariant disk == old(disk) + Names(downloaded)
      {
        var p := m.packages[i];
        var name := p.name;
        if hostPackages {
          name := ExtraName(arch, m.version, p.name);
          DownloadPackage(name, luck.downloads > i - 1);
          if luck.downloads <= i - 1 {
            NoEmptyName(arch, m);
            CleanupDownloadedFiles(downloaded);
            return files, downloaded, false;
          }
          downloaded := downloaded + [name];
          assert names[..i] == names[..i - 1] + [name];
        }
        files := files + [File(name, FormatUint(p.size), p.sha1, p.sha256)];
      }
      return files, downloaded, true;
    }

    /** `createPackage`. */
    method CreatePackage(arch: string, m: Manifest, luck: Luck) returns (ok: bool)
      modifies this`packages, this`disk
      ensures Outcome(State(), ok) == Mirrors.CreatePackage(old(State()), hostPackages, arch, m, luck)
    {
      hide FormatUint, PayloadName, ExtraName, Names;
      if |m.packages| == 0 {
        return false;
      }
      var omahaPkg := m.packages[0];
      var extraFiles, downloaded, extrasOk := ProcessExtraFiles(arch, m, luck);
      if !extrasOk {
        return false;
      }
      ghost var names := DownloadNames(arch, m);
      assert names[..|names|] == names && names[..|m.packages| - 1] + [PayloadName(arch, m.version)] == names;
      NoEmptyName(arch, m);
      NoNames(old(disk));
      var filename := omahaPkg.name;
      if hostPackages {
        RemovedAgain(disk, old(disk), downloaded, PayloadName(arch, m.version));
        filename := PayloadName(arch, m.version);
        DownloadPackage(filename, luck.downloads >= |m.packages|);
        if luck.downloads < |m.packages| {
          CleanupDownloadedFiles(downloaded);
          return false;
        }
        downloaded := downloaded + [filename];
        assert downloaded == names;
      }
      var action := if |m.actions| > 0 then Some(m.actions[0]) else None;
      var pkg := StoredPackage(filename, FormatUint(omahaPkg.size), omahaPkg.sha1, extraFiles, action);
      if action.None? || action.value.event == "" || action.value.sha256 == "" || !luck.stored
          || Key(arch, m.version) in packages {
        if hostPackages {
          CleanupDownloadedFiles(downloaded);
        }
        return false;
      }
      packages := packages[Key(arch, m.version) := pkg];
      return true;
    }

    /** `getOrCreatePackage`; `replies` is the number of manifests in the reply. */
    method GetOrCreatePackage(arch: string, m: Manifest, replies: nat, luck: Luck) returns (ok: bool)
      modifies this`packages, this`disk
      ensures Outcome(State(), ok) == GetOrCreate(old(State()), hostPackages, arch, m, replies > 1, luck)
    {
      if Key(arch, m.version) in packages && luck.found {
        if replies > 1 {
          ok := VerifyPackageIntegrity(packages[Key(arch, m.version)], m);
          return;
        }
        return true;
      }
      ok := CreatePackage(arch, m, luck);
    }

    /** `markPackageAsFloor`; `marked` tells whether the database answers. */
    method MarkPackageAsFloor(d: Descriptor, m: Manifest, marked: bool) returns (ok: bool)
      modifies this`channels
      ensures Outcome(State(), ok) == MarkFloor(old(State()), d, m, marked)
    {
      if !m.isFloor {
        return true;
      }
      var floorReason := m.floorReason;
      if floorReason == "" {
        floorReason := DEFAULT_REASON;
      }
      if d !in channels || m.version in channels[d].blacklisted || !marked {
        return false;
      }
      channels := channels[d := channels[d].(floors := channels[d].floors[m.version := floorReason])];
      return true;
    }

    /** `updateChannelToPackage`; `moved` tells whether the database answers. */
    method UpdateChannelToPackage(d: Descriptor, version: string, moved: bool) returns (ok: bool)
      modifies this`channels, this`versions
      ensures Outcome(State(), ok) == PointChannel(old(State()), d, version, moved)
    {
      if d !in channels || version in channels[d].blacklisted || !moved {
        return false;
      }
      channels := channels[d := channels[d].(package := Some(version))];
      versions := versions[d := version];
      return true;
    }

    /** The body of the loop over the manifests of a reply with several. */
    method ProcessManifest(d: Descriptor, m: Manifest, replies: nat, luck: Luck) returns (ok: bool)
      modifies this`packages, this`channels, this`disk
      ensures Outcome(State(), ok) == Step(old(State()), hostPackages, d, m, replies > 1, luck)
    {
      hide GetOrCreate, MarkFloor;
      ok := GetOrCreatePackage(d.arch, m, replies, luck);
      if ok {
        ok := MarkPackageAsFloor(d, m, luck.marked);
      }
    }

    /** The loop over the manifests: it ends at the first failure, and notes the package of the target version. */
    method ProcessManifests(d: Descriptor, ms: seq<Manifest>, luck: seq<Luck>, targetVersion: string)
      returns (ok: bool, targetPkg: Option<string>)
      modifies this`packages, this`channels, this`disk
      ensures Outcome(State(), ok) == Rounds(old(State()), hostPackages, d, ms, luck, |ms|)
      ensures ok ==> targetPkg == Noted(ms, |ms|, targetVersion)
    {
      ok, targetPkg := true, None;
      ghost var start := State();
      for k := 0 to |ms|
        invariant ok && Rounds(start, hostPackages, d, ms, luck, k) == Outcome(State(), true)
        invariant targetPkg == Noted(ms, k, targetVersion)
      {
        var m := ms[k];
        NextRound(start, State(), hostPackages, d, ms, luck, k);
        hide Rounds, Step;
        ok := ProcessManifest(d, m, |ms|, LuckAt(luck, k));
        if !ok {
          RoundsStop(start, hostPackages, d, ms, luck, k + 1, |ms|);
          return;
        }
        if targetVersion != "" && m.version == targetVersion {
          targetPkg := Some(m.version);
        }
      }
    }

    /** `processMultiManifestUpdate`. */
    method ProcessMultiManifestUpdate(d: Descriptor, ms: seq<Manifest>, luck: Fortune) returns (ok: bool)
      modifies this`packages, this`channels, this`versions, this`disk
      ensures Outcome(State(), ok) == ProcessMulti(old(State()), hostPackages, d, ms, luck)
    {
      if |ms| == 0 {
        return false;
      }
      var targetVersion := FindTarget(ms);
      var targetPkg;
      hide Target, Rounds;
      ok, targetPkg := ProcessManifests(d, ms, luck.rounds, targetVersion);
      NotedIff(ms, |ms|, targetVersion);
      if !ok {
        return;
      }
      if targetPkg.None? {
        return true;
      }
      ok := UpdateChannelToPackage(d, targetPkg.value, luck.moved);
    }

    /** `processUpdate` with `processSingleManifestUpdate`. */
    method ProcessUpdate(d: Descriptor, ms: seq<Manifest>, luck: Fortune) returns (ok: bool)
      modifies this`packages, this`channels, this`versions, this`disk
      ensures Outcome(State(), ok) == Mirrors.ProcessUpdate(old(State()), hostPackages, d, ms, luck)
    {
      if |ms| == 0 {
        return false;
      }
      if |ms| > 1 {
        ok := ProcessMultiManifestUpdate(d, ms, luck);
        return;
      }
      ok := GetOrCreatePackage(d.arch, ms[0], 1, LuckAt(luck.rounds, 0));
      if !ok {
        return;
      }
      ok := UpdateChannelToPackage(d, ms[0].version, luck.moved);
    }
  }

  /** `verifyPackageIntegrity`. */
  method VerifyPackageIntegrity(p: StoredPackage, m: Manifest) returns (ok: bool)
    ensures ok == Intact(p, m)
  {
    if |m.packages| == 0 {
      return false;
    }
    if p.sha1 != m.packages[0].sha1 {
      return false;
    }
    if p.size != FormatUint(m.packages[0].size) {
      return false;
    }
    return !(|m.actions| > 0 && p.action.None?);
  }

  /** The two loops that look for the target version; the empty text stands for none. */
  method FindTarget(ms: seq<Manifest>) returns (targetVersion: string)
    ensures Target(ms) == if targetVersion == "" then None else Some(targetVersion)
    ensures targetVersion != "" ==> exists j | 0 <= j < |ms| :: ms[j].version == targetVersion
  {
    for k := 0 to |ms|
      invariant FirstTarget(ms) == FirstTarget(ms[k..])
    {
      assert ms[k..][1..] == ms[k + 1..];
      if ms[k].isTarget {
        return ms[k].version;
      }
    }
    assert FirstTarget(ms) == None;
    var i := |ms|;
    assert ms[..i] == ms;
    while i > 0
      invariant 0 <= i <= |ms| && LastNonFloor(ms) == LastNonFloor(ms[..i])
    {
      i := i - 1;
      assert ms[..i + 1][..i] == ms[..i] && ms[..i + 1][i] == ms[i];
      if !ms[i].isFloor {
        return ms[i].version;
      }
    }
    return "";
  }

  /** The package of the target version that the loop has noted after `n` manifests. */
  function Noted(ms: seq<Manifest>, n: nat, targetVersion: string): Option<string>
    requires n <= |ms|
  {
    if n == 0 then None
    else if targetVersion != "" && ms[n - 1].version == targetVersion then Some(targetVersion)
    else Noted(ms, n - 1, targetVersion)
  }

  lemma {:induction false} NotedIff(ms: seq<Manifest>, n: nat, targetVersion: string)
    requires n <= |ms|
    ensures Noted(ms, n, targetVersion)
            == if targetVersion != "" && (exists j | 0 <= j < n :: ms[j].version == targetVersion)
               then Some(targetVersion) else None
  {
    if n > 0 {
      NotedIff(ms, n - 1, targetVersion);
    }
  }

  lemma NextRound(w: Mirror, now: Mirror, hosts: bool, d: Descriptor, ms: seq<Manifest>, luck: seq<Luck>, k: nat)
    requires k < |ms| && Rounds(w, hosts, d, ms, luck, k) == Outcome(now, true)
    ensures Rounds(w, hosts, d, ms, luck, k + 1) == Step(now, hosts, d, ms[k], |ms| > 1, LuckAt(luck, k))
  {
    hide Step;
  }

  /** Files that were fetched, with or without a last one, and removed again. */
  lemma RemovedAgain(disk: set<string>, before: set<string>, names: seq<string>, last: string)
    requires "" !in names + [last] && disk == before + Names(names)
    ensures disk - (Names(names) - {""}) == before - Names(names)
    ensures disk + {last} == before + Names(names + [last])
    ensures disk + {last} - (Names(names + [last]) - {""}) == before - Names(names + [last])
  {
    assert forall n :: n in Names(names + [last]) <==> n in Names(names) || n == last;
    assert forall n | n in Names(names + [last]) :: n in names + [last];
    assert forall n | n in Names(names) :: n in names + [last];
  }

  lemma NoNames(disk: set<string>)
    ensures disk + Names([]) == disk
  {
  }

  lemma NoEmptyName(arch: string, m: Manifest)
    requires m.packages != []
    ensures forall k | 0 <= k <= |DownloadNames(arch, m)| :: "" !in DownloadNames(arch, m)[..k]
  {
    var names := DownloadNames(arch, m);
    assert forall i | 0 <= i < |names| - 1 :: names[i] == ExtraName(arch, m.version, m.packages[i + 1].name);
    assert forall i | 0 <= i < |names| :: |names[i]| > 0;
  }

  /** A failed round decides the outcome of the whole loop. */
  lemma {:induction false} RoundsStop(w: Mirror, hosts: bool, d: Descriptor, ms: seq<Manifest>, luck: seq<Luck>,
      n: nat, k: nat)
    requires n <= k <= |ms| && !Rounds(w, hosts, d, ms, luck, n).ok
    ensures Rounds(w, hosts, d, ms, luck, k) == Rounds(w, hosts, d, ms, luck, n)
  {
    hide Step;
    if n < k {
      RoundsStop(w, hosts, d, ms, luck, n, k - 1);
    }
  }
}
