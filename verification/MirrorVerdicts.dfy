/**
 When a syncer's update succeeds, exactly, and what a success has brought downstream: the contents of the packages
 and the reasons of the floors as the upstream server has them.
 */
module MirrorVerdicts {
  import opened Versions
  import opened Wrappers
  import opened Floors
  import opened Manifests
  import opened Mirrors
  import opened Replication

  // ----- the reply -----

  /** What the server answers to a syncer that was granted packages. */
  lemma {:induction false} ReplyIff(text: Version -> string, packages: seq<Package>, multiManifestOk: bool)
    ensures var reply := SyncerReply(text, packages, multiManifestOk);
            var floors := exists p | p in packages :: p.isFloor;
            var complete := forall p | p in packages :: p.payload.flatcar ==> p.payload.action.Some?;
            && (reply == NoUpdate <==> packages == [] || (floors && !multiManifestOk))
            && (reply == InternalError <==> packages != [] && (floors ==> multiManifestOk) && !complete)
            && (reply.UpdateOk? ==>
                  && |reply.manifests| == |packages|
                  && forall k | 0 <= k < |packages| ::
                       && reply.manifests[k].version == text(packages[k].version)
                       && reply.manifests[k].isFloor == packages[k].isFloor
                       && (reply.manifests[k].isTarget <==> k == |packages| - 1)
                       && (!packages[k].isFloor ==> reply.manifests[k].floorReason == "")
                       && reply.manifests[k].actions == (if packages[k].payload.flatcar
                                                         then [packages[k].payload.action.value] else []))
  {
    hide OmahaPackages;
  }

  // ----- success -----

  /** The package of this manifest, at this version and size, is known and the manifest agrees with it. */
  predicate Agrees(known: StoredPackage, m: Manifest) {
    && m.packages != [] && known.sha1 == m.packages[0].sha1 && known.size == FormatUint(m.packages[0].size)
    && (m.actions != [] ==> known.action.Some?)
  }

  /** A package can be created from this manifest: everything is there, downloads and database do their part. */
  predicate Creatable(hosts: bool, m: Manifest, luck: Luck) {
    && m.packages != [] && (hosts ==> luck.downloads >= |m.packages|) && luck.stored
    && m.actions != [] && m.actions[0].event != "" && m.actions[0].sha256 != ""
  }

  /** The syncer gets hold of the package of a manifest, given the packages that are on record by then. */
  predicate Obtains(packages: map<Key, StoredPackage>, hosts: bool, arch: string, m: Manifest, multi: bool,
                    luck: Luck) {
    if Key(arch, m.version) in packages then luck.found && (multi ==> Agrees(packages[Key(arch, m.version)], m))
    else Creatable(hosts, m, luck)
  }

  /** The channel exists and is not blacklisted by the package. */
  predicate Admits(w: Mirror, d: Descriptor, version: string) {
    d in w.channels && version !in w.channels[d].blacklisted
  }

  /** Manifest `k` of a reply with several goes well. */
  predicate GoesWell(w: Mirror, hosts: bool, d: Descriptor, ms: seq<Manifest>, luck: seq<Luck>, k: nat)
    requires k < |ms|
  {
    && Obtains(Installed(w.packages, hosts, d.arch, ms[..k]), hosts, d.arch, ms[k], |ms| > 1, LuckAt(luck, k))
    && (ms[k].isFloor ==> Admits(w, d, ms[k].version) && LuckAt(luck, k).marked)
  }

  lemma ObtainsIff(w: Mirror, hosts: bool, arch: string, m: Manifest, multi: bool, luck: Luck)
    ensures GetOrCreate(w, hosts, arch, m, multi, luck).ok <==> Obtains(w.packages, hosts, arch, m, multi, luck)
  {
    hide PackageOf;
  }

  lemma MarkedIff(w: Mirror, d: Descriptor, m: Manifest, marked: bool)
    ensures MarkFloor(w, d, m, marked).ok <==> (m.isFloor ==> Admits(w, d, m.version) && marked)
  {
  }

  lemma {:induction false} RoundsGoWellIff(w: Mirror, hosts: bool, d: Descriptor, ms: seq<Manifest>, luck: seq<Luck>,
      n: nat)
    requires n <= |ms|
    ensures Rounds(w, hosts, d, ms, luck, n).ok <==> forall k | 0 <= k < n :: GoesWell(w, hosts, d, ms, luck, k)
  {
    hide Step, GoesWell, Synced;
    if n > 0 {
      RoundsGoWellIff(w, hosts, d, ms, luck, n - 1);
      var before := Rounds(w, hosts, d, ms, luck, n - 1);
      if before.ok {
        RoundsSync(w, hosts, d, ms, luck, n - 1);
        RoundGoesWellIff(w, before.mirror, hosts, d, ms, luck, n - 1);
      }
    }
  }

  lemma {:induction false} RoundGoesWellIff(w: Mirror, before: Mirror, hosts: bool, d: Descriptor, ms: seq<Manifest>,
      luck: seq<Luck>, k: nat)
    requires k < |ms| && Synced(w, before, hosts, d, ms[..k], |ms| > 1)
    ensures Step(before, hosts, d, ms[k], |ms| > 1, LuckAt(luck, k)).ok <==> GoesWell(w, hosts, d, ms, luck, k)
  {
    var m, lucky := ms[k], LuckAt(luck, k);
    ObtainsIff(before, hosts, d.arch, m, |ms| > 1, lucky);
    if GetOrCreate(before, hosts, d.arch, m, |ms| > 1, lucky).ok {
      CreatedOk(before, hosts, d, m, |ms| > 1, lucky);
      MarkedIff(GetOrCreate(before, hosts, d.arch, m, |ms| > 1, lucky).mirror, d, m, lucky.marked);
    }
    hide GetOrCreate, MarkFloor, Installed, Marks, Obtains, OnRecord, LuckAt;
  }

  /** The version that a reply with several manifests moves the channel to, if it moves it. */
  ghost predicate Heads(ms: seq<Manifest>, version: string) {
    || (exists k | 0 <= k < |ms| ::
          ms[k].isTarget && ms[k].version == version && forall j | 0 <= j < k :: !ms[j].isTarget)
    || ((forall j | 0 <= j < |ms| :: !ms[j].isTarget)
        && exists k | 0 <= k < |ms| ::
             !ms[k].isFloor && ms[k].version == version && forall j | k < j < |ms| :: ms[j].isFloor)
  }

  lemma {:induction false} HeadsIff(ms: seq<Manifest>, version: string)
    ensures Target(ms) == Some(version) <==> version != "" && Heads(ms, version)
  {
    var first := FirstTargetAt(ms);
    var last := LastNonFloorAt(ms);
    hide FirstTarget, LastNonFloor;
  }

  /**
   An update with several manifests succeeds if and only if every manifest goes well, and the channel can be moved
   to the version that the reply heads for, if that has a name.
   */
  lemma {:induction false} UpdateSucceedsIff(w: Mirror, hosts: bool, d: Descriptor, ms: seq<Manifest>, luck: Fortune)
    requires |ms| > 1
    ensures ProcessUpdate(w, hosts, d, ms, luck).ok <==>
            && (forall k | 0 <= k < |ms| :: GoesWell(w, hosts, d, ms, luck.rounds, k))
            && (forall version | version != "" && Heads(ms, version) :: Admits(w, d, version) && luck.moved)
  {
    RoundsGoWellIff(w, hosts, d, ms, luck.rounds, |ms|);
    var done := Rounds(w, hosts, d, ms, luck.rounds, |ms|);
    forall version
      ensures Target(ms) == Some(version) <==> version != "" && Heads(ms, version)
    {
      HeadsIff(ms, version);
    }
    hide Target, GoesWell, Heads, Rounds;
    if done.ok {
      RoundsSync(w, hosts, d, ms, luck.rounds, |ms|);
      FloorsOnlyAdmit(w, done.mirror, d, Marks(ms[..|ms|]));
    }
    hide Synced;
  }

  lemma FloorsOnlyAdmit(w: Mirror, out: Mirror, d: Descriptor, marks: map<string, string>)
    requires out.channels == WithFloors(w, d, marks)
    ensures forall version :: Usable(out, d, version) <==> Admits(w, d, version)
  {
  }

  /** An update with one manifest; its floor flag does not matter. */
  lemma {:induction false} SingleUpdateSucceedsIff(w: Mirror, hosts: bool, d: Descriptor, m: Manifest, luck: Fortune)
    ensures ProcessUpdate(w, hosts, d, [m], luck).ok <==>
            && Obtains(w.packages, hosts, d.arch, m, false, LuckAt(luck.rounds, 0))
            && Admits(w, d, m.version) && luck.moved
  {
    ObtainsIff(w, hosts, d.arch, m, false, LuckAt(luck.rounds, 0));
    if GetOrCreate(w, hosts, d.arch, m, false, LuckAt(luck.rounds, 0)).ok {
      CreatedOk(w, hosts, d, m, false, LuckAt(luck.rounds, 0));
    }
    hide GetOrCreate, Obtains, LuckAt, WithPackage;
  }

  // ----- what has arrived -----

  /** A downstream file is the upstream one; a mirror that hosts files renames it. */
  predicate CopiesFile(hosts: bool, arch: string, version: string, copy: File, original: File) {
    && copy.sha1 == original.sha1 && copy.sha256 == original.sha256 && SizeOf(copy.size) == SizeOf(original.size)
    && copy.name == if hosts then "extrafile-" + arch + "-" + version + "-" + original.name else original.name
  }

  /** A downstream package has the upstream payload: checksum, size, action, and every extra file in its place. */
  predicate CopiesPayload(hosts: bool, arch: string, version: string, copy: StoredPackage, original: Payload) {
    && copy.sha1 == original.sha1 && SizeOf(copy.size) == SizeOf(original.size) && copy.action == original.action
    && copy.filename == (if hosts then "flatcar-" + arch + "-" + version + ".gz" else original.filename)
    && |copy.files| == |original.files|
    && forall k | 0 <= k < |copy.files| :: CopiesFile(hosts, arch, version, copy.files[k], original.files[k])
  }

  /** The size that is sent for a text that is no 64-bit number. */
  lemma {:induction false} UnreadableSizeIsZero(s: string)
    requires s == "" || (exists c | c in s :: !('0' <= c <= '9')) || Numeral(s) >= UINT64
    ensures SizeOf(s) == 0
  {
  }

  lemma {:induction false} StoredCopies(text: Version -> string, hosts: bool, arch: string, p: Package, isTarget: bool)
    requires p.payload.flatcar && Offerable(p)
    ensures var m := ManifestOf(text, p, isTarget);
            m.packages != [] && CopiesPayload(hosts, arch, text(p.version), PackageOf(hosts, arch, m), p.payload)
  {
    var m := ManifestOf(text, p, isTarget);
    var copy := PackageOf(hosts, arch, m);
    SizeSurvives(p.payload.size);
    forall k | 0 <= k < |copy.files|
      ensures CopiesFile(hosts, arch, text(p.version), copy.files[k], p.payload.files[k])
    {
      var file := p.payload.files[k];
      assert m.packages[k + 1] == OmahaPackage(file.name, file.sha1, file.sha256, SizeOf(file.size));
      assert copy.files[k].sha1 == file.sha1 && copy.files[k].sha256 == file.sha256;
      assert copy.files[k].size == FormatUint(SizeOf(file.size));
      assert copy.files[k].name == if hosts then ExtraName(arch, text(p.version), file.name) else file.name;
      SizeSurvives(file.size);
    }
    hide SizeOf, FormatUint;
  }

  /** An unknown package is installed from the first manifest with its version. */
  lemma {:induction false} InstalledFromFirst(packages: map<Key, StoredPackage>, hosts: bool, arch: string,
      ms: seq<Manifest>, k: nat)
    requires k < |ms| && Key(arch, ms[k].version) !in packages && ms[k].packages != []
    requires forall j | 0 <= j < k :: ms[j].version != ms[k].version
    ensures Key(arch, ms[k].version) in Installed(packages, hosts, arch, ms)
    ensures Installed(packages, hosts, arch, ms)[Key(arch, ms[k].version)] == PackageOf(hosts, arch, ms[k])
    decreases |ms|
  {
    var n := |ms| - 1;
    hide PackageOf;
    if k < n {
      InstalledFromFirst(packages, hosts, arch, ms[..n], k);
    } else {
      NotInstalled(packages, hosts, arch, ms[..n], Key(arch, ms[k].version));
    }
  }

  lemma {:induction false} NotInstalled(packages: map<Key, StoredPackage>, hosts: bool, arch: string,
      ms: seq<Manifest>, key: Key)
    requires key !in packages && forall j | 0 <= j < |ms| :: ms[j].version != key.version
    ensures key !in Installed(packages, hosts, arch, ms)
  {
    hide PackageOf;
    if ms != [] {
      NotInstalled(packages, hosts, arch, ms[..|ms| - 1], key);
    }
  }

  /**
   What a success brings downstream: every package of the reply that was unknown is stored with the upstream
   payload, and what was known before is as it was.
   */
  lemma {:induction false} ContentsReplicated(text: Version -> string, packages: seq<Package>, w: Mirror, hosts: bool,
      d: Descriptor, ms: seq<Manifest>, luck: Fortune, k: nat)
    requires SyncerReply(text, packages, true) == UpdateOk(ms) && ProcessUpdate(w, hosts, d, ms, luck).ok
    requires k < |packages| && packages[k].payload.flatcar
    requires forall j | 0 <= j < k :: text(packages[j].version) != text(packages[k].version)
    ensures var key, out := Key(d.arch, text(packages[k].version)), ProcessUpdate(w, hosts, d, ms, luck).mirror;
            && key in out.packages
            && if key in w.packages then out.packages[key] == w.packages[key]
               else CopiesPayload(hosts, d.arch, key.version, out.packages[key], packages[k].payload)
  {
    assert packages[k] in packages && ms == ManifestsOf(text, packages);
    var key := Key(d.arch, text(packages[k].version));
    StoredCopies(text, hosts, d.arch, packages[k], k == |packages| - 1);
    assert ms[k] == ManifestOf(text, packages[k], k == |packages| - 1) && ms[k] in ms;
    assert forall j | 0 <= j < k :: ms[j].version == text(packages[j].version);
    UpdateInstalls(w, hosts, d, ms, luck);
    InstalledHas(w.packages, hosts, d.arch, ms);
    hide ManifestOf, ManifestsOf, PackageOf, ProcessUpdate, CopiesPayload, Installed, SyncerReply;
    if key !in w.packages {
      InstalledFromFirst(w.packages, hosts, d.arch, ms, k);
    }
  }

  lemma {:induction false} UpdateInstalls(w: Mirror, hosts: bool, d: Descriptor, ms: seq<Manifest>, luck: Fortune)
    requires ProcessUpdate(w, hosts, d, ms, luck).ok
    ensures ProcessUpdate(w, hosts, d, ms, luck).mirror.packages == Installed(w.packages, hosts, d.arch, ms)
  {
    if |ms| > 1 {
      UpdateOutcome(w, hosts, d, ms, luck);
    } else {
      CreatedOk(w, hosts, d, ms[0], false, LuckAt(luck.rounds, 0));
      InstalledNext(w.packages, hosts, d.arch, [], ms[0]);
      assert [] + [ms[0]] == ms && Installed(w.packages, hosts, d.arch, []) == w.packages;
    }
    hide ProcessMulti, GetOrCreate, Installed, WithPackage;
  }

  /** The reason under which a floor is marked downstream. */
  function DownstreamReason(p: Package): string {
    if p.floorReason == None then "Required intermediate version"
    else if p.floorReason == Some("") then "Synced from upstream Flatcar channel"
    else p.floorReason.value
  }

  lemma {:induction false} LastMarkCounts(ms: seq<Manifest>, k: nat)
    requires k < |ms| && ms[k].isFloor && forall j | k < j < |ms| :: !(ms[j].isFloor && ms[j].version == ms[k].version)
    ensures ms[k].version in Marks(ms) && Marks(ms)[ms[k].version] == Reason(ms[k])
    decreases |ms|
  {
    if k < |ms| - 1 {
      LastMarkCounts(ms[..|ms| - 1], k);
    }
  }

  /** Every floor of a reply with several packages is marked downstream with its upstream reason. */
  lemma {:induction false} ReasonsReplicated(text: Version -> string, packages: seq<Package>, w: Mirror, hosts: bool,
      d: Descriptor, ms: seq<Manifest>, luck: Fortune, k: nat)
    requires SyncerReply(text, packages, true) == UpdateOk(ms) && ProcessUpdate(w, hosts, d, ms, luck).ok
    requires k < |packages| && |packages| > 1 && packages[k].isFloor
    requires forall j | k < j < |packages| ::
               !(packages[j].isFloor && text(packages[j].version) == text(packages[k].version))
    ensures var out := ProcessUpdate(w, hosts, d, ms, luck).mirror;
            && d in out.channels && text(packages[k].version) in out.channels[d].floors
            && out.channels[d].floors[text(packages[k].version)] == DownstreamReason(packages[k])
  {
    ReplyMarks(text, packages, k);
    assert ms == ManifestsOf(text, packages);
    hide ProcessUpdate, ManifestsOf, SyncerReply, Marks, DownstreamReason;
    UpdateMarks(w, hosts, d, ms, luck, ms[k]);
  }

  lemma {:induction false} ReplyMarks(text: Version -> string, packages: seq<Package>, k: nat)
    requires k < |packages| && packages[k].isFloor
    requires forall j | k < j < |packages| ::
               !(packages[j].isFloor && text(packages[j].version) == text(packages[k].version))
    ensures var ms := ManifestsOf(text, packages);
            && |ms| == |packages| && ms[k].isFloor && ms[k].version == text(packages[k].version)
            && ms[k].version in Marks(ms) && Marks(ms)[ms[k].version] == DownstreamReason(packages[k])
  {
    var ms := ManifestsOf(text, packages);
    hide OmahaPackages;
    assert forall j | 0 <= j < |ms| ::
        ms[j].isFloor == packages[j].isFloor && ms[j].version == text(packages[j].version);
    assert Reason(ms[k]) == DownstreamReason(packages[k]);
    hide ManifestsOf, Reason, DownstreamReason;
    LastMarkCounts(ms, k);
  }

  lemma {:induction false} UpdateMarks(w: Mirror, hosts: bool, d: Descriptor, ms: seq<Manifest>, luck: Fortune,
      m: Manifest)
    requires |ms| > 1 && ProcessUpdate(w, hosts, d, ms, luck).ok && m in ms && m.isFloor && m.version in Marks(ms)
    ensures var out := ProcessUpdate(w, hosts, d, ms, luck).mirror;
            && d in out.channels && m.version in out.channels[d].floors
            && out.channels[d].floors[m.version] == Marks(ms)[m.version]
  {
    UpdateOutcome(w, hosts, d, ms, luck);
    UpdateUsesFloors(w, hosts, d, ms, luck, m);
    hide ProcessMulti, Marks, Installed, Target, Accepted;
  }

  lemma {:induction false} UpdateUsesFloors(w: Mirror, hosts: bool, d: Descriptor, ms: seq<Manifest>, luck: Fortune,
      m: Manifest)
    requires |ms| > 1 && ProcessUpdate(w, hosts, d, ms, luck).ok && m in ms && m.isFloor
    ensures d in w.channels
  {
    UpdateSucceedsIff(w, hosts, d, ms, luck);
    var k :| 0 <= k < |ms| && ms[k] == m;
    assert GoesWell(w, hosts, d, ms, luck.rounds, k);
    hide ProcessUpdate, Obtains, Heads;
  }
}
