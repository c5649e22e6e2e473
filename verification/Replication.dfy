/** A server's reply processed by a syncer: what arrives downstream of an upstream channel. */
module Replication {
  import opened Versions
  import opened Wrappers
  import opened Floors
  import opened Manifests
  import opened Mirrors
  import Runtime
  import SyncerChecks

  /** Distinct versions are written differently, and none as the empty text. */
  ghost predicate Legible(text: Version -> string) {
    && (forall a: Version, b: Version :: text(a) == text(b) ==> a == b)
    && (forall a: Version :: text(a) != "")
  }

  function TextsOf(text: Version -> string, packages: seq<Package>): set<string> {
    set p | p in packages :: text(p.version)
  }

  /** The floors that processing a reply marks: those flagged, unless the reply has a single manifest. */
  function MarkedBy(ms: seq<Manifest>): map<string, string> {
    if |ms| > 1 then Marks(ms) else map[]
  }

  /** Nothing was cut off the floors, and the target is not the only floor of the reply. */
  predicate Replicable(ch: Channel, v: Version, cap: nat)
    requires ch.target.Some?
  {
    var required := InRangeFloors(ch.floors, v, ch.target.value.version);
    |required| <= cap && !(|required| == 1 && required[0].id == ch.target.value.id)
  }

  predicate DistinctVersions(s: seq<Package>) {
    forall i, j | 0 <= i < j < |s| :: s[i].version != s[j].version
  }

  lemma {:induction false} InRangeDistinct(floors: seq<Package>, v: Version, t: Version)
    requires DistinctVersions(floors)
    ensures DistinctVersions(InRangeFloors(floors, v, t))
  {
    if floors != [] {
      var rest := floors[1..];
      InRangeDistinct(rest, v, t);
      var tail := InRangeFloors(rest, v, t);
      forall p | p in tail
        ensures p.version != floors[0].version
      {
        var k :| 0 <= k < |rest| && rest[k] == p;
        assert floors[k + 1] == p;
      }
      assert forall i | 0 <= i < |tail| :: tail[i] in tail;
    }
  }

  lemma {:induction false} OnlyLastIsTarget(text: Version -> string, packages: seq<Package>)
    requires packages != []
    ensures FirstTarget(ManifestsOf(text, packages)) == Some(text(packages[|packages| - 1].version))
  {
    var ms := ManifestsOf(text, packages);
    var k := FirstTargetAt(ms);
    assert ms[|ms| - 1].isTarget;
  }

  /** A reply's flagged floors are the versions of its floor packages. */
  lemma {:induction false} MarksAreFloorPackages(text: Version -> string, packages: seq<Package>, x: string)
    ensures x in Marks(ManifestsOf(text, packages)) <==> exists p | p in packages :: p.isFloor && text(p.version) == x
  {
    var ms := ManifestsOf(text, packages);
    MarksAreFloors(ms, x);
    if m :| m in ms && m.isFloor && m.version == x {
      var k :| 0 <= k < |ms| && ms[k] == m;
      assert packages[k] in packages;
    }
    if p :| p in packages && p.isFloor && text(p.version) == x {
      var k :| 0 <= k < |packages| && packages[k] == p;
      assert ms[k] in ms;
    }
  }

  /** The floors marked are those that were not cut off, if the reply has several manifests. */
  lemma {:induction false} MarkedAreSent(text: Version -> string, ch: Channel, v: Version, cap: nat, x: string)
    requires WellFormed(ch) && !ch.target.value.isFloor
    ensures var packages := PackagesForUpdate(ch, v, cap);
            x in MarkedBy(ManifestsOf(text, packages)) <==>
                |packages| > 1 && x in TextsOf(text, RequiredFloors(ch, v, cap))
  {
    var packages, sent := PackagesForUpdate(ch, v, cap), RequiredFloors(ch, v, cap);
    MarksAreFloorPackages(text, packages, x);
    forall p | p in sent
      ensures p.isFloor && p in packages
    {
      assert p in InRangeFloors(ch.floors, v, ch.target.value.version) && p in ch.floors;
    }
    assert forall p | p in packages && p.isFloor :: p in sent;
    hide WellFormed, RequiredFloors, PackagesForUpdate;
  }

  /** Sending a prefix of the floors is sending all of them exactly when nothing is cut. */
  lemma {:induction false} PrefixIsAll(text: Version -> string, floors: seq<Package>, n: nat)
    requires Legible(text) && n <= |floors| && DistinctVersions(floors)
    ensures TextsOf(text, floors[..n]) == TextsOf(text, floors) <==> n == |floors|
  {
    if n == |floors| {
      assert floors[..n] == floors;
    } else {
      var x := text(floors[n].version);
      assert floors[n] in floors && x in TextsOf(text, floors);
      assert x !in TextsOf(text, floors[..n]);
    }
  }

  /** The upstream server grants the syncer's check, for a group with this channel, and sends these manifests. */
  ghost predicate Sent(text: Version -> string, db: Runtime.Db, cfg: Runtime.Config, clock: Runtime.Clock,
                       req: Runtime.Request, ch: Channel, ms: seq<Manifest>) {
    && req.group in db.groups && db.groups[req.group].channel == Some(ch) && WellFormed(ch)
    && !ch.target.value.isFloor && cfg.maxFloors >= 1 && req.version.Some?
    && var result := Runtime.SyncerCheck(db, cfg, clock, req).result;
       result.Ok? && SyncerReply(text, result.value, true) == UpdateOk(ms)
  }

  lemma SentPackages(text: Version -> string, db: Runtime.Db, cfg: Runtime.Config, clock: Runtime.Clock,
      req: Runtime.Request, ch: Channel, ms: seq<Manifest>)
    requires Sent(text, db, cfg, clock, req, ch, ms)
    ensures ms == ManifestsOf(text, PackagesForUpdate(ch, req.version.value, cfg.maxFloors))
  {
    hide Runtime.SyncerCheck, PackagesForUpdate, WellFormed;
    SyncerChecks.SyncerGetsPackages(db, cfg, clock, req);
  }

  /**
   Replication, from server to mirror. When an upstream server grants a syncer's check and the syncer processes the
   reply with success, the downstream channel points at the upstream target, and downstream exactly the upstream
   floors between the syncer's version and the target are marked if and only if the cap did not cut the floors and
   the target is not the only one of them.
   */
  lemma {:induction false} ReplicatedFloorsIff(text: Version -> string, db: Runtime.Db, cfg: Runtime.Config,
      clock: Runtime.Clock, req: Runtime.Request, ch: Channel, w: Mirror, hosts: bool, d: Descriptor,
      ms: seq<Manifest>, luck: Fortune)
    requires Legible(text) && Sent(text, db, cfg, clock, req, ch, ms) && ProcessUpdate(w, hosts, d, ms, luck).ok
    ensures Moved(w, ProcessUpdate(w, hosts, d, ms, luck).mirror, d, text(ch.target.value.version), MarkedBy(ms))
    ensures MarkedBy(ms).Keys == TextsOf(text, InRangeFloors(ch.floors, req.version.value, ch.target.value.version))
            <==> Replicable(ch, req.version.value, cfg.maxFloors)
  {
    SentPackages(text, db, cfg, clock, req, ch, ms);
    ReplicatedTarget(text, ch, req.version.value, cfg.maxFloors, w, hosts, d, ms, luck);
    ReplicatedMarks(text, ch, req.version.value, cfg.maxFloors, ms);
  }

  // ----- by semantic versions -----

  /** The floors after `v` and up to the target by semantic version. */
  predicate Ahead(ch: Channel, v: Version, p: Package)
    requires ch.target.Some?
  {
    p in ch.floors && Less(v, p.version) && !Less(ch.target.value.version, p.version)
  }

  function FloorsAhead(text: Version -> string, ch: Channel, v: Version): set<string>
    requires ch.target.Some?
  {
    set p | p in ch.floors && Ahead(ch, v, p) :: text(p.version)
  }

  /**
   When the floors sent are those between the syncer and the target by semantic version: none hides behind the
   syncer's own numeric core, the floors that the cap lets through do not lie beyond the target, those it cuts
   off all do, and the target is not the only floor sent.
   */
  predicate SemanticallyReplicable(ch: Channel, v: Version, cap: nat)
    requires ch.target.Some?
  {
    var t := ch.target.value.version;
    var required, sent := InRangeFloors(ch.floors, v, t), RequiredFloors(ch, v, cap);
    && (forall p | p in ch.floors && p.version.core == v.core :: !Ahead(ch, v, p))
    && (forall i | 0 <= i < |sent| :: !Less(t, required[i].version))
    && (forall i | |sent| <= i < |required| :: Less(t, required[i].version))
    && !(|sent| == 1 && sent[0].id == ch.target.value.id)
  }

  /** What lies ahead by semantic version: what the query finds and is not beyond the target, and what hides from it. */
  lemma AheadSplit(ch: Channel, v: Version, p: Package)
    requires ch.target.Some?
    ensures Ahead(ch, v, p) <==>
            || (p in InRangeFloors(ch.floors, v, ch.target.value.version)
                && !Less(ch.target.value.version, p.version))
            || (p in ch.floors && p.version.core == v.core && Ahead(ch, v, p))
  {
  }

  lemma {:induction false} SentAreAheadIff(text: Version -> string, ch: Channel, v: Version, n: nat)
    requires Legible(text) && WellFormed(ch) && n <= |InRangeFloors(ch.floors, v, ch.target.value.version)|
    ensures var t := ch.target.value.version;
            var required := InRangeFloors(ch.floors, v, t);
            TextsOf(text, required[..n]) == FloorsAhead(text, ch, v) <==>
            && (forall p | p in ch.floors && p.version.core == v.core :: !Ahead(ch, v, p))
            && (forall i | 0 <= i < n :: !Less(t, required[i].version))
            && (forall i | n <= i < |required| :: Less(t, required[i].version))
  {
    var t := ch.target.value.version;
    var required := InRangeFloors(ch.floors, v, t);
    InRangeDistinct(ch.floors, v, t);
    forall p
      ensures Ahead(ch, v, p) <==> (p in required && !Less(t, p.version))
                                   || (p in ch.floors && p.version.core == v.core && Ahead(ch, v, p))
    {
      AheadSplit(ch, v, p);
    }
    assert forall p | p in required :: p in ch.floors && p.version.core != v.core;
    hide InRangeFloors, Ahead, WellFormed, Legible;
    if TextsOf(text, required[..n]) == FloorsAhead(text, ch, v) {
      SentMatch(text, ch, v, required, n);
    } else {
      hide DistinctVersions;
      if (forall p | p in ch.floors && p.version.core == v.core :: !Ahead(ch, v, p))
          && (forall i | 0 <= i < n :: !Less(t, required[i].version))
          && (forall i | n <= i < |required| :: Less(t, required[i].version)) {
        MatchSent(text, ch, v, required, n);
      }
    }
  }

  lemma {:induction false} MatchSent(text: Version -> string, ch: Channel, v: Version, required: seq<Package>, n: nat)
    requires ch.target.Some? && n <= |required|
    requires forall p | p in required :: p in ch.floors
    requires forall p :: Ahead(ch, v, p) <==> (p in required && !Less(ch.target.value.version, p.version))
                                              || (p in ch.floors && p.version.core == v.core && Ahead(ch, v, p))
    requires forall p | p in ch.floors && p.version.core == v.core :: !Ahead(ch, v, p)
    requires forall i | 0 <= i < n :: !Less(ch.target.value.version, required[i].version)
    requires forall i | n <= i < |required| :: Less(ch.target.value.version, required[i].version)
    ensures TextsOf(text, required[..n]) == FloorsAhead(text, ch, v)
  {
    hide Ahead;
    forall p
      ensures p in required[..n] <==> p in ch.floors && Ahead(ch, v, p)
    {
      if p in required[..n] {
        var i :| 0 <= i < n && required[i] == p;
        assert required[i] in required;
      }
      if p in ch.floors && Ahead(ch, v, p) {
        var i :| 0 <= i < |required| && required[i] == p;
        assert required[..n][i] == p;
      }
    }
  }

  lemma {:induction false} SentMatch(text: Version -> string, ch: Channel, v: Version, required: seq<Package>, n: nat)
    requires Legible(text) && ch.target.Some? && n <= |required| && DistinctVersions(required)
    requires forall p | p in required :: p in ch.floors && p.version.core != v.core
    requires forall p | p in required :: Ahead(ch, v, p) <==> !Less(ch.target.value.version, p.version)
    requires TextsOf(text, required[..n]) == FloorsAhead(text, ch, v)
    ensures forall p | p in ch.floors && p.version.core == v.core :: !Ahead(ch, v, p)
    ensures forall i | 0 <= i < n :: !Less(ch.target.value.version, required[i].version)
    ensures forall i | n <= i < |required| :: Less(ch.target.value.version, required[i].version)
  {
    assert forall p :: Ahead(ch, v, p) ==> !Less(ch.target.value.version, p.version);
    hide Ahead;
    forall p | p in ch.floors && Ahead(ch, v, p)
      ensures exists i | 0 <= i < n :: required[i].version == p.version
    {
      assert text(p.version) in TextsOf(text, required[..n]);
      var q :| q in required[..n] && text(q.version) == text(p.version);
    }
    assert forall i | 0 <= i < |required| :: required[i] in required && required[i].version.core != v.core;
    forall i | 0 <= i < n
      ensures !Less(ch.target.value.version, required[i].version)
    {
      assert required[i] in required[..n] && text(required[i].version) in FloorsAhead(text, ch, v);
      var p :| p in ch.floors && Ahead(ch, v, p) && text(p.version) == text(required[i].version);
    }
    forall i | n <= i < |required|
      ensures Less(ch.target.value.version, required[i].version)
    {
      assert required[i] in required;
      assert forall j | 0 <= j < n :: required[j].version != required[i].version;
    }
  }

  /** A reply of several manifests does not consist of a target that is a floor. */
  lemma LongReply(ch: Channel, v: Version, cap: nat)
    requires ch.target.Some? && |PackagesForUpdate(ch, v, cap)| > 1
    ensures var sent := RequiredFloors(ch, v, cap); !(|sent| == 1 && sent[0].id == ch.target.value.id)
  {
  }

  /** A reply of one manifest: no floor lies in the query's range, or the target is the only one. */
  lemma {:induction false} ShortReply(text: Version -> string, ch: Channel, v: Version, cap: nat)
    requires Legible(text) && WellFormed(ch) && cap >= 1 && |PackagesForUpdate(ch, v, cap)| <= 1
    ensures FloorsAhead(text, ch, v) == {} <==> SemanticallyReplicable(ch, v, cap)
  {
    var required, sent := InRangeFloors(ch.floors, v, ch.target.value.version), RequiredFloors(ch, v, cap);
    if sent == [] {
      assert required == [];
      SentAreAheadIff(text, ch, v, 0);
      assert TextsOf(text, required[..0]) == {};
      hide WellFormed, InRangeFloors, FloorsAhead, Ahead;
    } else {
      var x := sent[0];
      assert |sent| == 1 && x.id == ch.target.value.id && x in required && x in ch.floors;
      assert x.version == ch.target.value.version && Ahead(ch, v, x);
      assert text(x.version) in FloorsAhead(text, ch, v);
    }
  }

  /**
   Replication by semantic versions, from server to mirror. The floors marked downstream are exactly the upstream
   floors after the syncer's version and up to the target if and only if the floors that went into the reply are.
   */
  lemma {:induction false} SemanticFloorsReplicatedIff(text: Version -> string, db: Runtime.Db, cfg: Runtime.Config,
      clock: Runtime.Clock, req: Runtime.Request, ch: Channel, w: Mirror, hosts: bool, d: Descriptor,
      ms: seq<Manifest>, luck: Fortune)
    requires Legible(text) && Sent(text, db, cfg, clock, req, ch, ms) && ProcessUpdate(w, hosts, d, ms, luck).ok
    ensures Moved(w, ProcessUpdate(w, hosts, d, ms, luck).mirror, d, text(ch.target.value.version), MarkedBy(ms))
    ensures MarkedBy(ms).Keys == FloorsAhead(text, ch, req.version.value)
            <==> SemanticallyReplicable(ch, req.version.value, cfg.maxFloors)
  {
    SentPackages(text, db, cfg, clock, req, ch, ms);
    ReplicatedTarget(text, ch, req.version.value, cfg.maxFloors, w, hosts, d, ms, luck);
    SemanticMarks(text, ch, req.version.value, cfg.maxFloors, ms);
  }

  lemma {:induction false} SemanticMarks(text: Version -> string, ch: Channel, v: Version, cap: nat, ms: seq<Manifest>)
    requires Legible(text) && WellFormed(ch) && !ch.target.value.isFloor && cap >= 1
    requires ms == ManifestsOf(text, PackagesForUpdate(ch, v, cap))
    ensures MarkedBy(ms).Keys == FloorsAhead(text, ch, v) <==> SemanticallyReplicable(ch, v, cap)
  {
    MarkedFloors(text, ch, v, cap, ms);
    assert ch.target.Some?;
    hide WellFormed, MarkedBy, Legible, ManifestsOf, PackagesForUpdate;
    if |PackagesForUpdate(ch, v, cap)| > 1 {
      var sent := RequiredFloors(ch, v, cap);
      assert sent == InRangeFloors(ch.floors, v, ch.target.value.version)[..|sent|];
      hide InRangeFloors, TextsOf, FloorsAhead, Ahead;
      LongReply(ch, v, cap);
      SentAreAheadIff(text, ch, v, |sent|);
      hide RequiredFloors;
    } else {
      hide SemanticallyReplicable, FloorsAhead, TextsOf;
      ShortReply(text, ch, v, cap);
    }
  }

  lemma MarkedFloors(text: Version -> string, ch: Channel, v: Version, cap: nat, ms: seq<Manifest>)
    requires WellFormed(ch) && !ch.target.value.isFloor && ms == ManifestsOf(text, PackagesForUpdate(ch, v, cap))
    ensures MarkedBy(ms).Keys
            == if |PackagesForUpdate(ch, v, cap)| > 1 then TextsOf(text, RequiredFloors(ch, v, cap)) else {}
  {
    forall x
      ensures x in MarkedBy(ms) <==>
              |PackagesForUpdate(ch, v, cap)| > 1 && x in TextsOf(text, RequiredFloors(ch, v, cap))
    {
      MarkedAreSent(text, ch, v, cap, x);
    }
    hide WellFormed, MarkedBy, PackagesForUpdate, RequiredFloors, ManifestsOf;
  }

  lemma {:induction false} ReplicatedMarks(text: Version -> string, ch: Channel, v: Version, cap: nat,
      ms: seq<Manifest>)
    requires Legible(text) && WellFormed(ch) && !ch.target.value.isFloor && cap >= 1
    requires ms == ManifestsOf(text, PackagesForUpdate(ch, v, cap))
    ensures MarkedBy(ms).Keys == TextsOf(text, InRangeFloors(ch.floors, v, ch.target.value.version)) <==>
            Replicable(ch, v, cap)
  {
    var required := InRangeFloors(ch.floors, v, ch.target.value.version);
    var sent, packages := RequiredFloors(ch, v, cap), PackagesForUpdate(ch, v, cap);
    InRangeDistinct(ch.floors, v, ch.target.value.version);
    PrefixIsAll(text, required, |sent|);
    assert sent == required[..|sent|];
    MarkedFloors(text, ch, v, cap, ms);
    hide WellFormed, InRangeFloors, MarkedBy, Legible, ManifestsOf;
    if |packages| <= 1 {
      NoneToSend(text, required);
    }
  }

  lemma {:induction false} NoneToSend(text: Version -> string, required: seq<Package>)
    ensures TextsOf(text, required) == {} <==> required == []
  {
    if required != [] {
      assert required[0] in required && text(required[0].version) in TextsOf(text, required);
    }
  }

  lemma {:induction false} ReplicatedTarget(text: Version -> string, ch: Channel, v: Version, cap: nat, w: Mirror,
      hosts: bool, d: Descriptor, ms: seq<Manifest>, luck: Fortune)
    requires Legible(text) && WellFormed(ch)
    requires ms == ManifestsOf(text, PackagesForUpdate(ch, v, cap)) && ProcessUpdate(w, hosts, d, ms, luck).ok
    ensures Moved(w, ProcessUpdate(w, hosts, d, ms, luck).mirror, d, text(ch.target.value.version), MarkedBy(ms))
  {
    var packages := PackagesForUpdate(ch, v, cap);
    LastIsTarget(ch, v, cap);
    OnlyLastIsTarget(text, packages);
    assert |ms| == |packages| && ms[|ms| - 1].version == text(ch.target.value.version);
    hide PackagesForUpdate, WellFormed, ManifestsOf;
    if |ms| > 1 {
      assert Target(ms) == Some(text(ch.target.value.version));
      MovedByMulti(w, hosts, d, ms, luck);
    } else {
      MovedBySingle(w, hosts, d, ms, luck);
    }
  }

  /** The channel now points at version `x`, the syncer asks with it, and the channel gained these floors. */
  predicate Moved(w: Mirror, out: Mirror, d: Descriptor, x: string, marks: map<string, string>) {
    && d in w.channels && d in out.channels && d in out.versions
    && out.channels[d].package == Some(x) && out.versions[d] == x
    && out.channels[d].floors == w.channels[d].floors + marks
  }

  lemma {:induction false} MovedByMulti(w: Mirror, hosts: bool, d: Descriptor, ms: seq<Manifest>, luck: Fortune)
    requires |ms| > 1 && Target(ms).Some? && ProcessUpdate(w, hosts, d, ms, luck).ok
    ensures Moved(w, ProcessUpdate(w, hosts, d, ms, luck).mirror, d, Target(ms).value, MarkedBy(ms))
  {
    UpdateOutcome(w, hosts, d, ms, luck);
    hide ProcessMulti, Marks, Target, Installed;
    assert d in w.channels && Marks(ms) == map[] ==> w.channels[d].floors + Marks(ms) == w.channels[d].floors;
  }

  lemma {:induction false} MovedBySingle(w: Mirror, hosts: bool, d: Descriptor, ms: seq<Manifest>, luck: Fortune)
    requires |ms| == 1 && ProcessUpdate(w, hosts, d, ms, luck).ok
    ensures Moved(w, ProcessUpdate(w, hosts, d, ms, luck).mirror, d, ms[0].version, MarkedBy(ms))
  {
    var got := GetOrCreate(w, hosts, d.arch, ms[0], false, LuckAt(luck.rounds, 0));
    assert got.mirror.channels == w.channels;
    hide GetOrCreate;
    assert d in w.channels ==> w.channels[d].floors + map[] == w.channels[d].floors;
  }

  // ----- success -----

  /** Nothing goes wrong with the downloads and the database. */
  predicate Lucky(luck: seq<Luck>, ms: seq<Manifest>) {
    |luck| == |ms| && forall k | 0 <= k < |ms| ::
      luck[k].found && luck[k].stored && luck[k].marked && luck[k].downloads >= |ms[k].packages|
  }

  /** A manifest that can be stored or is stored already, in a channel that may use it. */
  ghost predicate Welcome(w: Mirror, d: Descriptor, m: Manifest) {
    && m.packages != [] && HasMetadata(m) && Usable(w, d, m.version)
    && (Key(d.arch, m.version) in w.packages ==> Intact(w.packages[Key(d.arch, m.version)], m))
  }

  lemma {:induction false} LuckyRounds(w: Mirror, hosts: bool, d: Descriptor, ms: seq<Manifest>, luck: seq<Luck>,
      n: nat)
    requires n <= |ms| && Lucky(luck, ms) && forall m | m in ms :: Welcome(w, d, m)
    requires forall i, j | 0 <= i < j < |ms| :: ms[i].version != ms[j].version
    ensures var out := Rounds(w, hosts, d, ms, luck, n);
            && out.ok && (forall k | k in out.mirror.packages :: k in w.packages || exists i | 0 <= i < n ::
                k == Key(d.arch, ms[i].version))
            && (forall k | k in w.packages :: k in out.mirror.packages && out.mirror.packages[k] == w.packages[k])
            && (forall v :: Usable(out.mirror, d, v) <==> Usable(w, d, v))
  {
    if n > 0 {
      LuckyRounds(w, hosts, d, ms, luck, n - 1);
      var before, m := Rounds(w, hosts, d, ms, luck, n - 1).mirror, ms[n - 1];
      assert m in ms && Welcome(w, d, m);
      hide Intact, PackageOf, HasMetadata, Rounds;
      LuckyStep(before, hosts, d, m, |ms| > 1, luck[n - 1]);
    }
  }

  lemma {:induction false} LuckyStep(w: Mirror, hosts: bool, d: Descriptor, m: Manifest, multi: bool,
      luck: Luck)
    requires m.packages != [] && HasMetadata(m) && Usable(w, d, m.version)
    requires luck.found && luck.stored && luck.marked && luck.downloads >= |m.packages|
    requires Key(d.arch, m.version) in w.packages ==> Intact(w.packages[Key(d.arch, m.version)], m)
    ensures var out := Step(w, hosts, d, m, multi, luck);
            && out.ok && (forall k | k in out.mirror.packages :: k in w.packages || k == Key(d.arch, m.version))
            && (forall k | k in w.packages :: k in out.mirror.packages && out.mirror.packages[k] == w.packages[k])
            && (forall v :: Usable(out.mirror, d, v) <==> Usable(w, d, v))
  {
    hide Intact, PackageOf, HasMetadata, PayloadName, ExtraName;
  }

  predicate AllLucky(luck: Fortune, ms: seq<Manifest>) {
    Lucky(luck.rounds, ms) && luck.moved
  }

  /** Manifests of different versions, each of which is welcome. */
  ghost predicate AllWelcome(w: Mirror, d: Descriptor, ms: seq<Manifest>) {
    && ms != [] && (forall m | m in ms :: Welcome(w, d, m))
    && forall i, j | 0 <= i < j < |ms| :: ms[i].version != ms[j].version
  }

  /** A reply whose manifests are all welcome is processed with success. */
  lemma {:induction false} WelcomeUpdateSucceeds(w: Mirror, hosts: bool, d: Descriptor, ms: seq<Manifest>,
      luck: Fortune)
    requires AllWelcome(w, d, ms) && AllLucky(luck, ms)
    ensures ProcessUpdate(w, hosts, d, ms, luck).ok
  {
    if |ms| > 1 {
      LuckyRounds(w, hosts, d, ms, luck.rounds, |ms|);
      TargetIsDocumented(ms);
      hide Rounds, FirstTarget, LastNonFloor, Intact, HasMetadata;
      if Target(ms).Some? {
        var k :| 0 <= k < |ms| && ms[k].version == Target(ms).value;
        assert ms[k] in ms && Welcome(w, d, ms[k]);
      }
    } else {
      assert ms[0] in ms && Welcome(w, d, ms[0]);
      hide PackageOf, PayloadName, ExtraName;
    }
  }

  // ----- recovery -----

  /** What is on record after installing manifests was there before, or is the package of one of them. */
  lemma {:induction false} InstalledFrom(packages: map<Key, StoredPackage>, hosts: bool, arch: string,
      ms: seq<Manifest>, k: Key)
    requires k in Installed(packages, hosts, arch, ms)
    ensures var r := Installed(packages, hosts, arch, ms);
            || (k in packages && r[k] == packages[k])
            || exists m | m in ms && m.packages != [] ::
                 k == Key(arch, m.version) && r[k] == PackageOf(hosts, arch, m)
  {
    if ms != [] {
      var rest, m := ms[..|ms| - 1], ms[|ms| - 1];
      assert m in ms && forall x | x in rest :: x in ms;
      hide PackageOf;
      if k in Installed(packages, hosts, arch, rest) {
        InstalledFrom(packages, hosts, arch, rest, k);
      }
    }
  }

  lemma {:induction false} PrefixWelcome(w: Mirror, w1: Mirror, hosts: bool, d: Descriptor, ms: seq<Manifest>, i: nat,
      marks: map<string, string>)
    requires AllWelcome(w, d, ms) && i <= |ms|
    requires w1.packages == Installed(w.packages, hosts, d.arch, ms[..i])
    requires w1.channels == WithFloors(w, d, marks)
    ensures AllWelcome(w1, d, ms)
  {
    forall m | m in ms
      ensures Welcome(w1, d, m)
    {
      assert Welcome(w, d, m);
      var k := Key(d.arch, m.version);
      if k in w1.packages {
        InstalledFrom(w.packages, hosts, d.arch, ms[..i], k);
        hide Installed, Intact, PackageOf;
        if x :| x in ms[..i] && x.packages != [] && k == Key(d.arch, x.version)
                && w1.packages[k] == PackageOf(hosts, d.arch, x) {
          assert x in ms && x == m;
          StoredIsIntact(hosts, d.arch, m);
        }
      }
    }
  }

  /** An aborted run of a welcome update leaves the update welcome. */
  lemma {:induction false} AbortedStaysWelcome(w: Mirror, hosts: bool, d: Descriptor, ms: seq<Manifest>, luck: Fortune)
    requires AllWelcome(w, d, ms) && |ms| > 1 && !ProcessMulti(w, hosts, d, ms, luck).ok
    ensures AllWelcome(ProcessMulti(w, hosts, d, ms, luck).mirror, d, ms)
  {
    var i, j := AbortedState(w, hosts, d, ms, luck);
    var w1 := ProcessMulti(w, hosts, d, ms, luck).mirror;
    hide ProcessMulti, AllWelcome;
    PrefixWelcome(w, w1, hosts, d, ms, i, Marks(ms[..j]));
  }

  lemma {:induction false} SingleRecovers(w: Mirror, hosts: bool, d: Descriptor, ms: seq<Manifest>, luck1: Fortune,
      luck2: Fortune)
    requires AllWelcome(w, d, ms) && AllLucky(luck2, ms) && |ms| == 1
    ensures var twice := ProcessUpdate(ProcessUpdate(w, hosts, d, ms, luck1).mirror, hosts, d, ms, luck2);
            twice.ok && SameCatalogue(twice.mirror, ProcessUpdate(w, hosts, d, ms, luck2).mirror)
  {
    var m := ms[0];
    assert m in ms && Welcome(w, d, m);
    var first, second := LuckAt(luck1.rounds, 0), LuckAt(luck2.rounds, 0);
    var got := GetOrCreate(w, hosts, d.arch, m, false, first);
    if got.ok {
      CreatedOk(w, hosts, d, m, false, first);
    } else {
      CreateFails(w, hosts, d, m, false, first);
    }
    var w1 := ProcessUpdate(w, hosts, d, ms, luck1).mirror;
    LuckyCreate(w, hosts, d.arch, m, second);
    LuckyCreate(w1, hosts, d.arch, m, second);
    CreatedOk(w, hosts, d, m, false, second);
    CreatedOk(w1, hosts, d, m, false, second);
    hide GetOrCreate, PackageOf, Intact, HasMetadata;
  }

  lemma LuckyCreate(w: Mirror, hosts: bool, arch: string, m: Manifest, luck: Luck)
    requires m.packages != [] && HasMetadata(m) && luck.found && luck.stored && luck.downloads >= |m.packages|
    ensures GetOrCreate(w, hosts, arch, m, false, luck).ok
  {
    hide PackageOf, PayloadName, ExtraName;
  }

  predicate SameCatalogue(a: Mirror, b: Mirror) {
    a.packages == b.packages && a.channels == b.channels && a.versions == b.versions
  }

  /**
   Recovery. Whatever becomes of a first run of a welcome update, and wherever it is aborted, a second run in
   which nothing goes wrong succeeds and leaves the catalogue as if it had been the only one.
   */
  lemma {:induction false} SecondRunRecovers(w: Mirror, hosts: bool, d: Descriptor, ms: seq<Manifest>, luck1: Fortune,
      luck2: Fortune)
    requires AllWelcome(w, d, ms) && AllLucky(luck2, ms)
    ensures var twice := ProcessUpdate(ProcessUpdate(w, hosts, d, ms, luck1).mirror, hosts, d, ms, luck2);
            twice.ok && SameCatalogue(twice.mirror, ProcessUpdate(w, hosts, d, ms, luck2).mirror)
  {
    var first := ProcessUpdate(w, hosts, d, ms, luck1);
    WelcomeUpdateSucceeds(w, hosts, d, ms, luck2);
    if |ms| == 1 {
      SingleRecovers(w, hosts, d, ms, luck1, luck2);
    } else if first.ok {
      RetryChangesNothing(w, hosts, d, ms, luck1, luck2);
      UpdateOutcome(w, hosts, d, ms, luck1);
      UpdateOutcome(w, hosts, d, ms, luck2);
    } else {
      AbortedStaysWelcome(w, hosts, d, ms, luck1);
      WelcomeUpdateSucceeds(first.mirror, hosts, d, ms, luck2);
      AbortThenSuccess(w, hosts, d, ms, luck1, luck2, luck2);
    }
    hide ProcessMulti, Installed, Marks, WithFloors, Target;
  }

  // ----- mirrors of mirrors -----

  /** A stored package as the mirror's own update service loads it. */
  function PayloadOf(p: StoredPackage): Payload {
    Payload(true, p.filename, p.sha1, p.size, p.files, p.action)
  }

  /**
   A mirror that does not host files offers what it was offered: the manifest it sends for a package it
   stored lists the same files, sizes and checksums, and the same action.
   */
  lemma {:induction false} MirrorOffersTheSame(text: Version -> string, arch: string, p: Package, isTarget: bool)
    requires p.payload.flatcar && Offerable(p)
    ensures var m := ManifestOf(text, p, isTarget);
            var copy := p.(payload := PayloadOf(PackageOf(false, arch, m)));
            ManifestOf(text, copy, isTarget) == m
  {
    var m := ManifestOf(text, p, isTarget);
    var copy := p.(payload := PayloadOf(PackageOf(false, arch, m)));
    PayloadSurvives(arch, m, p.payload);
    hide OmahaPackages, PackageOf, PayloadName;
    assert copy.payload.flatcar && copy.payload.action == p.payload.action by {
      StoredAction(arch, m);
    }
  }

  lemma StoredAction(arch: string, m: Manifest)
    requires m.packages != []
    ensures PackageOf(false, arch, m).action == if m.actions == [] then None else Some(m.actions[0])
  {
  }

  lemma {:induction false} PayloadSurvives(arch: string, m: Manifest, p: Payload)
    requires m.packages == OmahaPackages(p)
    ensures OmahaPackages(PayloadOf(PackageOf(false, arch, m))) == m.packages
  {
    var copy := PayloadOf(PackageOf(false, arch, m));
    assert |OmahaPackages(copy)| == |m.packages|;
    forall k | 0 <= k < |m.packages|
      ensures OmahaPackages(copy)[k] == m.packages[k]
    {
      SizeSurvives(if k == 0 then p.size else p.files[k - 1].size);
      assert k > 0 ==>
          copy.files[k - 1] == File(m.packages[k].name, FormatUint(m.packages[k].size), m.packages[k].sha1,
          m.packages[k].sha256);
    }
  }

  lemma SizeSurvives(s: string)
    ensures SizeOf(FormatUint(SizeOf(s))) == SizeOf(s)
  {
    FormatThenParse(SizeOf(s));
  }
}
