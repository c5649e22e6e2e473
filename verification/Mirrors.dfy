/**
 The catalogue that a syncer maintains, and what processing one update reply does to it. Packages are
 known by architecture and version, which identify them within the Flatcar application; floors and
 channels refer to them by version. Class `Syncer` of `SyncerService` processes updates step by step.
 */
module Mirrors {
  import opened Wrappers
  import opened Floors
  import opened Manifests

  datatype Key = Key(arch: string, version: string)

  datatype Descriptor = Descriptor(name: string, arch: string)

  datatype StoredPackage = StoredPackage(filename: string, size: string, sha1: string, files: seq<File>,
      action: Option<FlatcarAction>)

  /** A downstream channel: its package, its floors with their reasons, and the packages that blacklist it. */
  datatype ChannelState = ChannelState(package: Option<string>, floors: map<string, string>, blacklisted: set<string>)

  /** `versions` are the versions the syncer asks with; `disk` the files in its package directory. */
  datatype Mirror = Mirror(packages: map<Key, StoredPackage>, channels: map<Descriptor, ChannelState>,
                           versions: map<Descriptor, string>, disk: set<string>)

  /**
   How the outside world fares while one manifest is processed: the downloads that succeed, and whether the
   database answers when the package is looked up, stored and marked as floor.
   */
  datatype Luck = Luck(downloads: nat, found: bool, stored: bool, marked: bool)

  /** The same for a whole update: one entry per manifest, and whether the database moves the channel. */
  datatype Fortune = Fortune(rounds: seq<Luck>, moved: bool)

  datatype Outcome = Outcome(mirror: Mirror, ok: bool)

  const DEFAULT_REASON := "Synced from upstream Flatcar channel"

  // ----- packages -----

  /** The file name of a hosted payload. */
  function PayloadName(arch: string, version: string): string {
    "flatcar-" + arch + "-" + version + ".gz"
  }

  function ExtraName(arch: string, version: string, name: string): string {
    "extrafile-" + arch + "-" + version + "-" + name
  }

  /** The files a hosting syncer downloads for a manifest: the extra files in order, then the payload. */
  function DownloadNames(arch: string, m: Manifest): seq<string>
    requires m.packages != []
  {
    seq(|m.packages| - 1, k requires 0 <= k < |m.packages| - 1 => ExtraName(arch, m.version, m.packages[k + 1].name))
    + [PayloadName(arch, m.version)]
  }

  function Names(s: seq<string>): set<string> {
    set n | n in s
  }

  function ExtraFiles(hosts: bool, arch: string, m: Manifest): seq<File>
    requires m.packages != []
  {
    seq(|m.packages| - 1, k requires 0 <= k < |m.packages| - 1 =>
        var p := m.packages[k + 1];
        File(if hosts then ExtraName(arch, m.version, p.name) else p.name, FormatUint(p.size), p.sha1, p.sha256))
  }

  /** The package that `createPackage` stores for a manifest. */
  function PackageOf(hosts: bool, arch: string, m: Manifest): StoredPackage
    requires m.packages != []
  {
    StoredPackage(if hosts then PayloadName(arch, m.version) else m.packages[0].name,
                  FormatUint(m.packages[0].size), m.packages[0].sha1, ExtraFiles(hosts, arch, m),
                  if m.actions == [] then None else Some(m.actions[0]))
  }

  /** The check of `AddPackageWithMetadata` for Flatcar packages. */
  predicate HasMetadata(m: Manifest) {
    m.actions != [] && m.actions[0].event != "" && m.actions[0].sha256 != ""
  }

  /** `verifyPackageIntegrity`. */
  predicate Intact(p: StoredPackage, m: Manifest) {
    && m.packages != []
    && p.sha1 == m.packages[0].sha1
    && p.size == FormatUint(m.packages[0].size)
    && (m.actions != [] ==> p.action.Some?)
  }

  /** `createPackage`; a failure cleans up what was downloaded. */
  function CreatePackage(w: Mirror, hosts: bool, arch: string, m: Manifest, luck: Luck): Outcome {
    if m.packages == [] then Outcome(w, false)
    else
      var names := DownloadNames(arch, m);
      if hosts && luck.downloads < |names| then Outcome(w.(disk := w.disk - Names(names[..luck.downloads])), false)
      else if !HasMetadata(m) || !luck.stored || Key(arch, m.version) in w.packages then
        Outcome(w.(disk := if hosts then w.disk - Names(names) else w.disk), false)
      else Outcome(w.(packages := w.packages[Key(arch, m.version) := PackageOf(hosts, arch, m)],
                      disk := if hosts then w.disk + Names(names) else w.disk), true)
  }

  /**
   `getOrCreatePackage`; the integrity of a known package is checked for multi-manifest replies only. A package
   that cannot be looked up is taken for an unknown one.
   */
  function GetOrCreate(w: Mirror, hosts: bool, arch: string, m: Manifest, multi: bool, luck: Luck): Outcome {
    if Key(arch, m.version) in w.packages && luck.found then
      Outcome(w, multi ==> Intact(w.packages[Key(arch, m.version)], m))
    else CreatePackage(w, hosts, arch, m, luck)
  }

  // ----- channels -----

  function Reason(m: Manifest): string {
    if m.floorReason == "" then DEFAULT_REASON else m.floorReason
  }

  /** A package that the channel may use: the channel exists and is not blacklisted by it. */
  predicate Usable(w: Mirror, d: Descriptor, version: string) {
    d in w.channels && version !in w.channels[d].blacklisted
  }

  /** `markPackageAsFloor`. */
  function MarkFloor(w: Mirror, d: Descriptor, m: Manifest, marked: bool): Outcome {
    if !m.isFloor then Outcome(w, true)
    else if !Usable(w, d, m.version) || !marked then Outcome(w, false)
    else
      var channel := w.channels[d];
      Outcome(w.(channels := w.channels[d := channel.(floors := channel.floors[m.version := Reason(m)])]), true)
  }

  /** `updateChannelToPackage`: the channel and the tracked version move together. */
  function PointChannel(w: Mirror, d: Descriptor, version: string, moved: bool): Outcome {
    if !Usable(w, d, version) || !moved then Outcome(w, false)
    else
      Outcome(w.(channels := w.channels[d := w.channels[d].(package := Some(version))],
          versions := w.versions[d := version]), true)
  }

  function FirstTarget(ms: seq<Manifest>): Option<string> {
    if ms == [] then None else if ms[0].isTarget then Some(ms[0].version) else FirstTarget(ms[1..])
  }

  function LastNonFloor(ms: seq<Manifest>): Option<string> {
    if ms == [] then None
    else if !ms[|ms| - 1].isFloor then Some(ms[|ms| - 1].version)
    else LastNonFloor(ms[..|ms| - 1])
  }

  /** The version the channel is to move to: the first explicit target, else the last manifest that is no floor. */
  function Target(ms: seq<Manifest>): Option<string> {
    var target := if FirstTarget(ms).Some? then FirstTarget(ms) else LastNonFloor(ms);
    if target == Some("") then None else target
  }

  function LuckAt(luck: seq<Luck>, k: nat): Luck {
    if k < |luck| then luck[k] else Luck(0, false, false, false)
  }

  /** One round of the loop over the manifests. */
  function Step(w: Mirror, hosts: bool, d: Descriptor, m: Manifest, multi: bool, luck: Luck): Outcome {
    var got := GetOrCreate(w, hosts, d.arch, m, multi, luck);
    if !got.ok then got else MarkFloor(got.mirror, d, m, luck.marked)
  }

  /** The first `n` rounds; the loop ends at the first failure. */
  function Rounds(w: Mirror, hosts: bool, d: Descriptor, ms: seq<Manifest>, luck: seq<Luck>, n: nat): Outcome
    requires n <= |ms|
  {
    if n == 0 then Outcome(w, true)
    else
      var before := Rounds(w, hosts, d, ms, luck, n - 1);
      if !before.ok then before else Step(before.mirror, hosts, d, ms[n - 1], |ms| > 1, LuckAt(luck, n - 1))
  }

  /** `processMultiManifestUpdate`. */
  function ProcessMulti(w: Mirror, hosts: bool, d: Descriptor, ms: seq<Manifest>, luck: Fortune): Outcome {
    if ms == [] then Outcome(w, false)
    else
      var done := Rounds(w, hosts, d, ms, luck.rounds, |ms|);
      if !done.ok then done
      else
        match Target(ms)
        case None => done
        case Some(version) => PointChannel(done.mirror, d, version, luck.moved)
  }

  /** `processUpdate`: a reply with a single manifest creates the package and moves the channel, and marks no floor. */
  function ProcessUpdate(w: Mirror, hosts: bool, d: Descriptor, ms: seq<Manifest>, luck: Fortune): Outcome {
    if |ms| == 0 then Outcome(w, false)
    else if |ms| > 1 then ProcessMulti(w, hosts, d, ms, luck)
    else
      var got := GetOrCreate(w, hosts, d.arch, ms[0], false, LuckAt(luck.rounds, 0));
      if !got.ok then got else PointChannel(got.mirror, d, ms[0].version, luck.moved)
  }

  // ----- creating a package is all or nothing -----

  /**
   The package directory after `createPackage`. On success with hosting it gains exactly the payload and
   one file per extra package. On failure nothing is left of the attempt; the directory is as before
   exactly when no file fetched by the attempt was there already.
   */
  lemma {:induction false} CreateIsAllOrNothing(w: Mirror, hosts: bool, arch: string, m: Manifest, luck: Luck)
    ensures var out := CreatePackage(w, hosts, arch, m, luck);
            var fetched := if m.packages == [] || !hosts then {}
                           else if luck.downloads < |m.packages| then Names(DownloadNames(arch, m)[..luck.downloads])
                           else Names(DownloadNames(arch, m));
            if out.ok then
              && out.mirror.disk == w.disk + fetched
              && (hosts ==> fetched == {PayloadName(arch, m.version)}
                                       + set k | 1 <= k < |m.packages| ::
                                           ExtraName(arch, m.version, m.packages[k].name))
            else
              && out.mirror.packages == w.packages && out.mirror.channels == w.channels
              && out.mirror.versions == w.versions
              && out.mirror.disk == w.disk - fetched
              && (out.mirror.disk == w.disk <==> fetched !! w.disk)
  {
    if m.packages != [] {
      var names := DownloadNames(arch, m);
      assert names[..|names|] == names;
      forall n
        ensures n in Names(names) <==> n == PayloadName(arch, m.version)
                                       || exists k | 1 <= k < |m.packages| ::
                                           n == ExtraName(arch, m.version, m.packages[k].name)
      {
        NamesAre(arch, m, n);
      }
    }
  }

  lemma {:induction false} NamesAre(arch: string, m: Manifest, n: string)
    requires m.packages != []
    ensures n in DownloadNames(arch, m) <==>
            n == PayloadName(arch, m.version) || exists k | 1 <= k < |m.packages| ::
                n == ExtraName(arch, m.version, m.packages[k].name)
  {
    var names := DownloadNames(arch, m);
    assert names[|names| - 1] == PayloadName(arch, m.version);
    forall k | 1 <= k < |m.packages|
      ensures ExtraName(arch, m.version, m.packages[k].name) in names
    {
      assert names[k - 1] == ExtraName(arch, m.version, m.packages[k].name);
    }
    if n in names && n != PayloadName(arch, m.version) {
      var j :| 0 <= j < |names| && names[j] == n;
      assert n == ExtraName(arch, m.version, m.packages[j + 1].name);
    }
  }

  /** `verifyPackageIntegrity` accepts what `createPackage` stored. */
  lemma StoredIsIntact(hosts: bool, arch: string, m: Manifest)
    requires m.packages != []
    ensures Intact(PackageOf(hosts, arch, m), m)
  {
  }

  // ----- the outcome of an update -----

  function WithPackage(packages: map<Key, StoredPackage>, hosts: bool, arch: string, m: Manifest)
      : map<Key, StoredPackage> {
    if Key(arch, m.version) in packages || m.packages == [] then packages
    else packages[Key(arch, m.version) := PackageOf(hosts, arch, m)]
  }

  /** Packages are added for unknown versions and never changed. */
  function Installed(packages: map<Key, StoredPackage>, hosts: bool, arch: string, ms: seq<Manifest>)
      : map<Key, StoredPackage> {
    if ms == [] then packages
    else WithPackage(Installed(packages, hosts, arch, ms[..|ms| - 1]), hosts, arch, ms[|ms| - 1])
  }

  /** The floors that a list of manifests asks for. */
  function Marks(ms: seq<Manifest>): map<string, string> {
    if ms == [] then map[]
    else
      var rest := Marks(ms[..|ms| - 1]);
      if ms[|ms| - 1].isFloor then rest[ms[|ms| - 1].version := Reason(ms[|ms| - 1])] else rest
  }

  /** The channel marks exactly the versions of the manifests flagged floor. */
  lemma {:induction false} MarksAreFloors(ms: seq<Manifest>, v: string)
    ensures v in Marks(ms) <==> exists m | m in ms :: m.isFloor && m.version == v
  {
    if ms != [] {
      var rest, last := ms[..|ms| - 1], ms[|ms| - 1];
      MarksAreFloors(rest, v);
      assert ms == rest + [last];
      assert forall m :: m in ms <==> m in rest || m == last;
    }
  }

  function WithFloors(w: Mirror, d: Descriptor, marks: map<string, string>): map<Descriptor, ChannelState> {
    if marks == map[] || d !in w.channels then w.channels
    else w.channels[d := w.channels[d].(floors := w.channels[d].floors + marks)]
  }

  lemma {:induction false} PrefixGrows<T>(s: seq<T>, n: nat)
    requires 0 < n <= |s|
    ensures s[..n] == s[..n - 1] + [s[n - 1]] && s[..n][..n - 1] == s[..n - 1] && s[..n][n - 1] == s[n - 1]
    ensures forall x :: x in s[..n] <==> x in s[..n - 1] || x == s[n - 1]
  {
  }

  lemma {:induction false} CreatedOk(w: Mirror, hosts: bool, d: Descriptor, m: Manifest, multi: bool, luck: Luck)
    requires GetOrCreate(w, hosts, d.arch, m, multi, luck).ok
    ensures var out := GetOrCreate(w, hosts, d.arch, m, multi, luck).mirror;
            && out.channels == w.channels && out.versions == w.versions
            && out.packages == WithPackage(w.packages, hosts, d.arch, m)
            && Accepted(out.packages, d.arch, m, multi)
  {
  }

  lemma {:induction false} MarkedOk(w: Mirror, d: Descriptor, m: Manifest, marked: bool, w0: Mirror,
      marks: map<string, string>)
    requires MarkFloor(w, d, m, marked).ok && w.channels == WithFloors(w0, d, marks)
    ensures var out := MarkFloor(w, d, m, marked).mirror;
            && out.channels == WithFloors(w0, d, if m.isFloor then marks[m.version := Reason(m)] else marks)
            && out.packages == w.packages && out.versions == w.versions && out.disk == w.disk
            && (m.isFloor ==> Usable(w0, d, m.version))
  {
    if m.isFloor {
      var more := marks[m.version := Reason(m)];
      assert m.version in more;
      assert (w0.channels[d].floors + marks)[m.version := Reason(m)] == w0.channels[d].floors + more;
      if marks == map[] {
        assert w0.channels[d].floors + marks == w0.channels[d].floors;
      }
    }
  }

  /** What the rounds did when they all succeeded. */
  ghost predicate Synced(w: Mirror, out: Mirror, hosts: bool, d: Descriptor, done: seq<Manifest>, multi: bool) {
    && out.packages == Installed(w.packages, hosts, d.arch, done)
    && out.channels == WithFloors(w, d, Marks(done))
    && out.versions == w.versions
    && OnRecord(out.packages, w, d, done, multi)
  }

  lemma {:induction false} InstalledNext(packages: map<Key, StoredPackage>, hosts: bool, arch: string,
      done: seq<Manifest>, m: Manifest)
    ensures Installed(packages, hosts, arch, done + [m])
            == WithPackage(Installed(packages, hosts, arch, done), hosts, arch, m)
  {
    hide WithPackage;
    assert (done + [m])[..|done + [m]| - 1] == done;
  }

  lemma {:induction false} MarksNext(done: seq<Manifest>, m: Manifest)
    ensures Marks(done + [m]) == if m.isFloor then Marks(done)[m.version := Reason(m)] else Marks(done)
  {
    assert (done + [m])[..|done + [m]| - 1] == done;
  }

  /** The manifest's package is on record, and intact if that is checked. */
  predicate Accepted(packages: map<Key, StoredPackage>, arch: string, m: Manifest, multi: bool) {
    Key(arch, m.version) in packages && (multi ==> Intact(packages[Key(arch, m.version)], m))
  }

  /** Every manifest's package is accepted, and usable if it is a floor. */
  ghost predicate OnRecord(packages: map<Key, StoredPackage>, w: Mirror, d: Descriptor, ms: seq<Manifest>,
      multi: bool) {
    forall m | m in ms :: Accepted(packages, d.arch, m, multi) && (m.isFloor ==> Usable(w, d, m.version))
  }

  lemma {:induction false} OnRecordNext(before: map<Key, StoredPackage>, after: map<Key, StoredPackage>, w: Mirror,
      d: Descriptor, done: seq<Manifest>, m: Manifest, multi: bool)
    requires OnRecord(before, w, d, done, multi) && forall k | k in before :: k in after && after[k] == before[k]
    requires Accepted(after, d.arch, m, multi) && (m.isFloor ==> Usable(w, d, m.version))
    ensures OnRecord(after, w, d, done + [m], multi)
  {
    hide Intact, Usable;
  }

  lemma {:induction false} RoundSyncs(w: Mirror, before: Mirror, hosts: bool, d: Descriptor, done: seq<Manifest>,
      m: Manifest, multi: bool, luck: Luck)
    requires Synced(w, before, hosts, d, done, multi) && Step(before, hosts, d, m, multi, luck).ok
    ensures Synced(w, Step(before, hosts, d, m, multi, luck).mirror, hosts, d, done + [m], multi)
  {
    hide Installed, Marks, Accepted, PackageOf, WithFloors, GetOrCreate, MarkFloor, OnRecord, Usable;
    var got := GetOrCreate(before, hosts, d.arch, m, multi, luck).mirror;
    CreatedOk(before, hosts, d, m, multi, luck);
    MarkedOk(got, d, m, luck.marked, w, Marks(done));
    InstalledNext(w.packages, hosts, d.arch, done, m);
    MarksNext(done, m);
    OnRecordNext(before.packages, got.packages, w, d, done, m, multi);
  }

  lemma {:induction false} RoundsSync(w: Mirror, hosts: bool, d: Descriptor, ms: seq<Manifest>, luck: seq<Luck>, n: nat)
    requires n <= |ms| && Rounds(w, hosts, d, ms, luck, n).ok
    ensures Synced(w, Rounds(w, hosts, d, ms, luck, n).mirror, hosts, d, ms[..n], |ms| > 1)
  {
    hide Step;
    if n == 0 {
      NothingSynced(w, hosts, d, |ms| > 1);
      assert ms[..0] == [];
    } else {
      hide Synced;
      RoundsSync(w, hosts, d, ms, luck, n - 1);
      RoundSyncs(w, Rounds(w, hosts, d, ms, luck, n - 1).mirror, hosts, d, ms[..n - 1], ms[n - 1], |ms| > 1,
                 LuckAt(luck, n - 1));
      PrefixGrows(ms, n);
    }
  }

  lemma NothingSynced(w: Mirror, hosts: bool, d: Descriptor, multi: bool)
    ensures Synced(w, w, hosts, d, [], multi)
  {
  }

  /** Where a failed round leaves the catalogue: packages of the first `i` manifests, floors of the first `j`. */
  lemma {:induction false} RoundsAbort(w: Mirror, hosts: bool, d: Descriptor, ms: seq<Manifest>, luck: seq<Luck>,
      n: nat)
    returns (i: nat, j: nat)
    requires n <= |ms| && !Rounds(w, hosts, d, ms, luck, n).ok
    ensures j <= i <= |ms|
    ensures var out := Rounds(w, hosts, d, ms, luck, n).mirror;
            && out.packages == Installed(w.packages, hosts, d.arch, ms[..i])
            && out.channels == WithFloors(w, d, Marks(ms[..j])) && out.versions == w.versions
  {
    hide Step;
    var before := Rounds(w, hosts, d, ms, luck, n - 1);
    if !before.ok {
      i, j := RoundsAbort(w, hosts, d, ms, luck, n - 1);
    } else {
      RoundsSync(w, hosts, d, ms, luck, n - 1);
      PrefixGrows(ms, n);
      i, j := RoundAborts(w, before.mirror, hosts, d, ms[..n - 1], ms[n - 1], |ms| > 1, LuckAt(luck, n - 1));
      assert ms[..i] == (ms[..n - 1] + [ms[n - 1]])[..i];
      assert ms[..j] == (ms[..n - 1] + [ms[n - 1]])[..j];
    }
  }

  lemma {:induction false} RoundAborts(w: Mirror, before: Mirror, hosts: bool, d: Descriptor, done: seq<Manifest>,
      m: Manifest, multi: bool, luck: Luck)
    returns (i: nat, j: nat)
    requires Synced(w, before, hosts, d, done, multi) && !Step(before, hosts, d, m, multi, luck).ok
    ensures j == |done| <= i <= |done| + 1
    ensures var out := Step(before, hosts, d, m, multi, luck).mirror;
            && out.packages == Installed(w.packages, hosts, d.arch, (done + [m])[..i])
            && out.channels == WithFloors(w, d, Marks((done + [m])[..j])) && out.versions == w.versions
  {
    var got := GetOrCreate(before, hosts, d.arch, m, multi, luck);
    j := |done|;
    assert (done + [m])[..j] == done;
    i := if got.ok then |done| + 1 else |done|;
    hide GetOrCreate, MarkFloor, WithFloors, Installed, Marks, OnRecord;
    if got.ok {
      CreatedOk(before, hosts, d, m, multi, luck);
      MarkFails(got.mirror, d, m, luck.marked);
      InstalledNext(w.packages, hosts, d.arch, done, m);
      assert (done + [m])[..i] == done + [m];
    } else {
      CreateFails(before, hosts, d, m, multi, luck);
    }
  }

  lemma CreateFails(w: Mirror, hosts: bool, d: Descriptor, m: Manifest, multi: bool, luck: Luck)
    requires !GetOrCreate(w, hosts, d.arch, m, multi, luck).ok
    ensures var out := GetOrCreate(w, hosts, d.arch, m, multi, luck).mirror;
            out.packages == w.packages && out.channels == w.channels && out.versions == w.versions
  {
    hide PackageOf, DownloadNames;
  }

  lemma MarkFails(w: Mirror, d: Descriptor, m: Manifest, marked: bool)
    ensures !MarkFloor(w, d, m, marked).ok ==> MarkFloor(w, d, m, marked).mirror == w
  {
  }

  /**
   The outcome of a multi-manifest update. Success installs the missing packages, marks exactly the flagged
   floors and moves channel and tracked version to the target, if there is one; a failure moves no channel
   and no tracked version.
   */
  lemma {:induction false} UpdateOutcome(w: Mirror, hosts: bool, d: Descriptor, ms: seq<Manifest>, luck: Fortune)
    ensures var out := ProcessMulti(w, hosts, d, ms, luck);
            if out.ok then
              && out.mirror.packages == Installed(w.packages, hosts, d.arch, ms)
              && (forall m | m in ms :: Accepted(out.mirror.packages, d.arch, m, |ms| > 1))
              && var marked := WithFloors(w, d, Marks(ms));
                 match Target(ms)
                 case None => out.mirror.channels == marked && out.mirror.versions == w.versions
                 case Some(v) =>
                   && d in marked && out.mirror.channels == marked[d := marked[d].(package := Some(v))]
                   && out.mirror.versions == w.versions[d := v]
            else
              && out.mirror.versions == w.versions && out.mirror.channels.Keys == w.channels.Keys
              && (forall e | e in w.channels :: out.mirror.channels[e].package == w.channels[e].package)
              && (forall e | e in w.channels && e != d :: out.mirror.channels[e] == w.channels[e])
  {
    if ms != [] {
      var done := Rounds(w, hosts, d, ms, luck.rounds, |ms|);
      assert ms[..|ms|] == ms;
      hide Rounds, Installed, Marks, Target, Accepted;
      if done.ok {
        RoundsSync(w, hosts, d, ms, luck.rounds, |ms|);
        FloorsOnly(w, done.mirror, d, Marks(ms));
        hide WithFloors;
      } else {
        var i, j := RoundsAbort(w, hosts, d, ms, luck.rounds, |ms|);
        FloorsOnly(w, done.mirror, d, Marks(ms[..j]));
        hide WithFloors;
      }
    }
  }

  /** Marking floors touches one channel, and not its package. */
  lemma FloorsOnly(w: Mirror, out: Mirror, d: Descriptor, marks: map<string, string>)
    requires out.channels == WithFloors(w, d, marks)
    ensures out.channels.Keys == w.channels.Keys
    ensures forall e | e in w.channels :: out.channels[e].package == w.channels[e].package
    ensures forall e | e in w.channels && e != d :: out.channels[e] == w.channels[e]
  {
  }

  // ----- the target -----

  /** The target is the first manifest flagged as target; without one, the last manifest that is no floor. */
  lemma {:induction false} TargetIsDocumented(ms: seq<Manifest>)
    ensures match FirstTarget(ms)
            case Some(v) => exists k | 0 <= k < |ms| ::
              ms[k].isTarget && ms[k].version == v && forall j | 0 <= j < k :: !ms[j].isTarget
            case None => forall k | 0 <= k < |ms| :: !ms[k].isTarget
    ensures match LastNonFloor(ms)
            case Some(v) => exists k | 0 <= k < |ms| ::
              !ms[k].isFloor && ms[k].version == v && forall j | k < j < |ms| :: ms[j].isFloor
            case None => forall k | 0 <= k < |ms| :: ms[k].isFloor
  {
    var first := FirstTargetAt(ms);
    var last := LastNonFloorAt(ms);
    hide FirstTarget, LastNonFloor;
  }

  lemma {:induction false} FirstTargetAt(ms: seq<Manifest>) returns (k: nat)
    ensures match FirstTarget(ms)
            case Some(v) =>
              k < |ms| && ms[k].isTarget && ms[k].version == v && forall j | 0 <= j < k :: !ms[j].isTarget
            case None => forall j | 0 <= j < |ms| :: !ms[j].isTarget
  {
    k := 0;
    if ms != [] && !ms[0].isTarget {
      var k' := FirstTargetAt(ms[1..]);
      k := k' + 1;
      assert forall j | 0 < j < |ms| :: ms[j] == ms[1..][j - 1];
    }
  }

  lemma {:induction false} LastNonFloorAt(ms: seq<Manifest>) returns (k: nat)
    ensures match LastNonFloor(ms)
            case Some(v) =>
              k < |ms| && !ms[k].isFloor && ms[k].version == v && forall j | k < j < |ms| :: ms[j].isFloor
            case None => forall j | 0 <= j < |ms| :: ms[j].isFloor
  {
    k := if ms == [] then 0 else |ms| - 1;
    if ms != [] && ms[|ms| - 1].isFloor {
      k := LastNonFloorAt(ms[..|ms| - 1]);
      assert forall j | 0 <= j < |ms| - 1 :: ms[j] == ms[..|ms| - 1][j];
    }
  }

  // ----- processing an update again -----

  lemma {:induction false} InstalledHas(packages: map<Key, StoredPackage>, hosts: bool, arch: string, ms: seq<Manifest>)
    ensures var r := Installed(packages, hosts, arch, ms);
            && packages.Keys <= r.Keys && (forall k | k in packages :: r[k] == packages[k])
            && (forall m | m in ms :: Key(arch, m.version) in r || m.packages == [])
  {
    if ms != [] {
      var rest := ms[..|ms| - 1];
      InstalledHas(packages, hosts, arch, rest);
      assert forall m | m in ms :: m in rest || m == ms[|ms| - 1];
    }
  }

  lemma {:induction false} NothingMissing(packages: map<Key, StoredPackage>, hosts: bool, arch: string,
      ms: seq<Manifest>)
    requires forall m | m in ms :: Key(arch, m.version) in packages || m.packages == []
    ensures Installed(packages, hosts, arch, ms) == packages
  {
    if ms != [] {
      assert ms[|ms| - 1] in ms;
      NothingMissing(packages, hosts, arch, ms[..|ms| - 1]);
    }
  }

  lemma {:induction false} InstalledAppend(packages: map<Key, StoredPackage>, hosts: bool, arch: string,
      a: seq<Manifest>, b: seq<Manifest>)
    ensures Installed(packages, hosts, arch, a + b) == Installed(Installed(packages, hosts, arch, a), hosts, arch, b)
  {
    if b == [] {
      assert a + b == a;
    } else {
      var n := |b| - 1;
      assert (a + b)[..|a + b| - 1] == a + b[..n];
      assert (a + b)[|a + b| - 1] == b[n];
      InstalledAppend(packages, hosts, arch, a, b[..n]);
      hide PackageOf;
    }
  }

  /** Installing a prefix first makes no difference in the end. */
  lemma {:induction false} InstalledAgain(packages: map<Key, StoredPackage>, hosts: bool, arch: string,
      ms: seq<Manifest>, i: nat)
    requires i <= |ms|
    ensures Installed(Installed(packages, hosts, arch, ms[..i]), hosts, arch, ms)
            == Installed(packages, hosts, arch, ms)
  {
    var some := Installed(packages, hosts, arch, ms[..i]);
    assert ms == ms[..i] + ms[i..];
    InstalledHas(packages, hosts, arch, ms[..i]);
    InstalledAppend(packages, hosts, arch, ms[..i], ms[i..]);
    InstalledAppend(some, hosts, arch, ms[..i], ms[i..]);
    NothingMissing(some, hosts, arch, ms[..i]);
  }

  lemma {:induction false} MarksOfPrefix(ms: seq<Manifest>, j: nat)
    requires j <= |ms|
    ensures Marks(ms[..j]).Keys <= Marks(ms).Keys
    decreases |ms|
  {
    if j < |ms| {
      assert ms[..|ms| - 1][..j] == ms[..j];
      MarksOfPrefix(ms[..|ms| - 1], j);
    } else {
      assert ms[..j] == ms;
    }
  }

  /** Marking a prefix first makes no difference in the end. */
  lemma {:induction false} MarkedAgain(w: Mirror, w1: Mirror, d: Descriptor, ms: seq<Manifest>, j: nat)
    requires j <= |ms| && w1.channels == WithFloors(w, d, Marks(ms[..j]))
    ensures WithFloors(w1, d, Marks(ms)) == WithFloors(w, d, Marks(ms))
  {
    MarksOfPrefix(ms, j);
    hide Marks;
    var some, all := Marks(ms[..j]), Marks(ms);
    if d in w.channels {
      var floors := w.channels[d].floors;
      assert floors + some + all == floors + all;
      assert all == map[] ==> some == map[];
      assert some == map[] ==> floors + some == floors;
    }
  }

  /**
   A run that is aborted and then repeated with success ends in the same catalogue as a single successful run.
   It may have been aborted anywhere: while a package was looked up, created or marked as floor, or when the
   channel was to be moved.
   */
  lemma {:induction false} AbortThenSuccess(w: Mirror, hosts: bool, d: Descriptor, ms: seq<Manifest>, luck1: Fortune,
      luck2: Fortune, luck3: Fortune)
    requires var aborted := ProcessMulti(w, hosts, d, ms, luck1);
             !aborted.ok && ProcessMulti(aborted.mirror, hosts, d, ms, luck2).ok
    requires ProcessMulti(w, hosts, d, ms, luck3).ok
    ensures var twice := ProcessMulti(ProcessMulti(w, hosts, d, ms, luck1).mirror, hosts, d, ms, luck2).mirror;
            var once := ProcessMulti(w, hosts, d, ms, luck3).mirror;
            twice.packages == once.packages && twice.channels == once.channels && twice.versions == once.versions
  {
    var w1 := ProcessMulti(w, hosts, d, ms, luck1).mirror;
    UpdateOutcome(w1, hosts, d, ms, luck2);
    UpdateOutcome(w, hosts, d, ms, luck3);
    var i, j := AbortedState(w, hosts, d, ms, luck1);
    hide ProcessMulti, WithFloors, Marks, Target;
    InstalledAgain(w.packages, hosts, d.arch, ms, i);
    MarkedAgain(w, w1, d, ms, j);
  }

  lemma {:induction false} AbortedState(w: Mirror, hosts: bool, d: Descriptor, ms: seq<Manifest>, luck: Fortune)
    returns (i: nat, j: nat)
    requires ms != [] && !ProcessMulti(w, hosts, d, ms, luck).ok
    ensures j <= i <= |ms|
    ensures var out := ProcessMulti(w, hosts, d, ms, luck).mirror;
            && out.packages == Installed(w.packages, hosts, d.arch, ms[..i])
            && out.channels == WithFloors(w, d, Marks(ms[..j])) && out.versions == w.versions
  {
    if Rounds(w, hosts, d, ms, luck.rounds, |ms|).ok {
      RoundsSync(w, hosts, d, ms, luck.rounds, |ms|);
      i, j := |ms|, |ms|;
    } else {
      i, j := RoundsAbort(w, hosts, d, ms, luck.rounds, |ms|);
    }
  }

  /** The database answers when known packages are looked up and marked. */
  predicate Answers(luck: seq<Luck>, n: nat) {
    n <= |luck| && forall k | 0 <= k < n :: luck[k].found && luck[k].marked
  }

  /** When every package is on record and intact, the rounds succeed whatever the downloads, and create nothing. */
  lemma {:induction false} AcceptedRounds(w: Mirror, hosts: bool, d: Descriptor, ms: seq<Manifest>, luck: seq<Luck>,
      n: nat)
    requires n <= |ms| && OnRecord(w.packages, w, d, ms, |ms| > 1) && Answers(luck, n)
    ensures var out := Rounds(w, hosts, d, ms, luck, n);
            && out.ok && out.mirror.disk == w.disk && out.mirror.packages == w.packages
            && out.mirror.channels.Keys == w.channels.Keys
            && forall e | e in w.channels :: out.mirror.channels[e].blacklisted == w.channels[e].blacklisted
  {
    if n > 0 {
      AcceptedRounds(w, hosts, d, ms, luck, n - 1);
      assert ms[n - 1] in ms;
      hide CreatePackage, Intact;
    }
  }

  /**
   Processing a successful update again while the database answers succeeds and changes nothing, on record or on
   disk, whatever the downloads.
   */
  lemma {:induction false} RetryChangesNothing(w: Mirror, hosts: bool, d: Descriptor, ms: seq<Manifest>,
      luck1: Fortune, luck2: Fortune)
    requires ProcessUpdate(w, hosts, d, ms, luck1).ok && Answers(luck2.rounds, |ms|) && luck2.moved
    ensures var w1 := ProcessUpdate(w, hosts, d, ms, luck1).mirror;
            ProcessUpdate(w1, hosts, d, ms, luck2) == Outcome(w1, true)
  {
    if |ms| > 1 {
      MultiRetryChangesNothing(w, hosts, d, ms, luck1, luck2);
    } else {
      SingleRetryChangesNothing(w, hosts, d, ms[0], LuckAt(luck1.rounds, 0), luck1.moved, LuckAt(luck2.rounds, 0));
    }
  }

  lemma {:induction false} SingleRetryChangesNothing(w: Mirror, hosts: bool, d: Descriptor, m: Manifest, luck: Luck,
      moved: bool, luck2: Luck)
    requires luck2.found
    requires var got := GetOrCreate(w, hosts, d.arch, m, false, luck);
             got.ok && PointChannel(got.mirror, d, m.version, moved).ok
    ensures var w1 := PointChannel(GetOrCreate(w, hosts, d.arch, m, false, luck).mirror, d, m.version, moved).mirror;
            var again := GetOrCreate(w1, hosts, d.arch, m, false, luck2);
            again == Outcome(w1, true) && PointChannel(w1, d, m.version, true) == Outcome(w1, true)
  {
    CreatedOk(w, hosts, d, m, false, luck);
    hide CreatePackage, WithPackage;
    var w1 := PointChannel(GetOrCreate(w, hosts, d.arch, m, false, luck).mirror, d, m.version, moved).mirror;
    assert w1.channels[d := w1.channels[d].(package := Some(m.version))] == w1.channels;
    assert w1.versions[d := m.version] == w1.versions;
  }

  lemma {:induction false} MultiRetryChangesNothing(w: Mirror, hosts: bool, d: Descriptor, ms: seq<Manifest>,
      luck1: Fortune, luck2: Fortune)
    requires ProcessMulti(w, hosts, d, ms, luck1).ok && Answers(luck2.rounds, |ms|) && luck2.moved
    ensures var w1 := ProcessMulti(w, hosts, d, ms, luck1).mirror;
            ProcessMulti(w1, hosts, d, ms, luck2) == Outcome(w1, true)
  {
    var w1 := ProcessMulti(w, hosts, d, ms, luck1).mirror;
    UpdateOutcome(w, hosts, d, ms, luck1);
    SuccessAccepts(w, hosts, d, ms, luck1);
    RetrySucceeds(w1, hosts, d, ms, luck2);
    UpdateOutcome(w1, hosts, d, ms, luck2);
    var w2 := ProcessMulti(w1, hosts, d, ms, luck2).mirror;
    hide ProcessMulti, Marks, Target;
    NothingMissing(w1.packages, hosts, d.arch, ms);
    SameChannels(w, w1, w2, d, Marks(ms), Target(ms));
  }

  lemma {:induction false} SameChannels(w: Mirror, w1: Mirror, w2: Mirror, d: Descriptor, marks: map<string, string>,
      target: Option<string>)
    requires var marked := WithFloors(w, d, marks);
             match target
             case None => w1.channels == marked && w1.versions == w.versions
             case Some(v) =>
                 d in marked && w1.channels == marked[d := marked[d].(package := Some(v))]
                 && w1.versions == w.versions[d := v]
    requires var marked := WithFloors(w1, d, marks);
             match target
             case None => w2.channels == marked && w2.versions == w1.versions
             case Some(v) =>
                 d in marked && w2.channels == marked[d := marked[d].(package := Some(v))]
                 && w2.versions == w1.versions[d := v]
    ensures w2.channels == w1.channels && w2.versions == w1.versions
  {
    if d in w.channels {
      var floors := w.channels[d].floors;
      assert floors + marks + marks == floors + marks;
      assert marks == map[] ==> floors + marks == floors;
    }
  }

  lemma {:induction false} SuccessAccepts(w: Mirror, hosts: bool, d: Descriptor, ms: seq<Manifest>, luck: Fortune)
    requires ProcessMulti(w, hosts, d, ms, luck).ok
    ensures var out := ProcessMulti(w, hosts, d, ms, luck).mirror; OnRecord(out.packages, out, d, ms, |ms| > 1)
    ensures Target(ms).Some? ==> Usable(ProcessMulti(w, hosts, d, ms, luck).mirror, d, Target(ms).value)
  {
    RoundsSync(w, hosts, d, ms, luck.rounds, |ms|);
    assert ms[..|ms|] == ms;
    hide Rounds, Intact, Marks, Target, Installed;
  }

  lemma {:induction false} RetrySucceeds(w1: Mirror, hosts: bool, d: Descriptor, ms: seq<Manifest>, luck2: Fortune)
    requires ms != [] && OnRecord(w1.packages, w1, d, ms, |ms| > 1) && Answers(luck2.rounds, |ms|) && luck2.moved
    requires Target(ms).Some? ==> Usable(w1, d, Target(ms).value)
    ensures ProcessMulti(w1, hosts, d, ms, luck2).ok && ProcessMulti(w1, hosts, d, ms, luck2).mirror.disk == w1.disk
  {
    AcceptedRounds(w1, hosts, d, ms, luck2.rounds, |ms|);
    hide Rounds, OnRecord, Target, Answers;
  }

  // ----- a lookup that fails -----

  /**
   A known package that cannot be looked up is created anew. That cannot succeed, and on a hosting mirror the
   clean-up takes away the files that were fetched again: after a complete download, every file of the package.
   */
  lemma {:induction false} FailedLookupLosesFiles(w: Mirror, arch: string, m: Manifest, multi: bool, luck: Luck)
    requires Key(arch, m.version) in w.packages && m.packages != []
    ensures var out := GetOrCreate(w, true, arch, m, multi, luck);
            if luck.found then out.mirror == w
            else
              && !out.ok && out.mirror.packages == w.packages
              && (luck.downloads >= |m.packages| ==> out.mirror.disk == w.disk - Names(DownloadNames(arch, m)))
  {
  }
}
