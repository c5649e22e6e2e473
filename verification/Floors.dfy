/**
 Floor packages of a channel and the order in which a client is led through them.

 `Channel.floors` lists the channel's floors as the database returns them: ascending by numeric
 core, packages with the same core in any order.
 */
module Floors {
  import opened Versions
  import opened Wrappers

  datatype File = File(name: string, size: string, sha1: string, sha256: string)

  datatype FlatcarAction = FlatcarAction(event: string, displayVersion: string, sha256: string)

  /** `flatcar` is true for packages of the Flatcar type, which cannot be offered without their action. */
  datatype Payload = Payload(flatcar: bool, filename: string, sha1: string, size: string, files: seq<File>,
                             action: Option<FlatcarAction>)

  datatype Package = Package(id: string, version: Version, blacklist: set<string>,
                             isFloor: bool, floorReason: Option<string>, payload: Payload)

  datatype Channel = Channel(id: string, target: Option<Package>, floors: seq<Package>)

  predicate Offerable(p: Package) {
    p.payload.flatcar ==> p.payload.action.Some?
  }

  /** What the schema and the floor query guarantee about a channel that has a target. */
  ghost predicate WellFormed(ch: Channel) {
    && ch.target.Some?
    && (forall i, j | 0 <= i < j < |ch.floors| :: ch.floors[i].version.core <= ch.floors[j].version.core)
    && (forall i, j | 0 <= i < j < |ch.floors| :: ch.floors[i].version != ch.floors[j].version)
    && (forall i | 0 <= i < |ch.floors| :: ch.floors[i].isFloor)
    && (forall i | 0 <= i < |ch.floors| ::
          ch.floors[i].id == ch.target.value.id <==> ch.floors[i].version == ch.target.value.version)
  }

  /** The range test of the floor query: it only looks at numeric cores. */
  predicate InRange(v: Version, f: Version, t: Version) {
    v.core < f.core <= t.core
  }

  /** The floors strictly after `v` and up to `t`, in the order of `floors`. */
  function InRangeFloors(floors: seq<Package>, v: Version, t: Version): (r: seq<Package>)
    ensures |r| <= |floors|
    ensures forall p | p in r :: p in floors && InRange(v, p.version, t)
    ensures forall p | p in floors && InRange(v, p.version, t) :: p in r
  {
    if floors == [] then []
    else (if InRange(v, floors[0].version, t) then [floors[0]] else []) + InRangeFloors(floors[1..], v, t)
  }

  /** The `LIMIT` of the floor query. */
  function Cut(s: seq<Package>, cap: nat): (r: seq<Package>)
    ensures r <= s && (|r| == |s| || |r| == cap)
    ensures |s| <= cap <==> |s| <= cap && r == s
  {
    if |s| <= cap then s else s[..cap]
  }

  function RequiredFloors(ch: Channel, v: Version, cap: nat): seq<Package>
    requires ch.target.Some?
  {
    Cut(InRangeFloors(ch.floors, v, ch.target.value.version), cap)
  }

  /** Floors plus target, the target not repeated when it is the last floor returned. */
  function PackagesForUpdate(ch: Channel, v: Version, cap: nat): (r: seq<Package>)
    requires ch.target.Some?
    ensures r != [] && r[|r| - 1].id == ch.target.value.id
  {
    var required := RequiredFloors(ch, v, cap);
    if |required| > 0 && required[|required| - 1].id == ch.target.value.id then required
    else required + [ch.target.value]
  }

  /** The version a regular client at `v` is handed, whatever the cap is. */
  function NextVersion(ch: Channel, v: Version): Version
    requires ch.target.Some?
  {
    var required := InRangeFloors(ch.floors, v, ch.target.value.version);
    if required == [] then ch.target.value.version else required[0].version
  }

  /** The list for an update ends at the target's version, also when the target is a floor itself. */
  lemma {:induction false} LastIsTarget(ch: Channel, v: Version, cap: nat)
    requires WellFormed(ch)
    ensures var packages := PackagesForUpdate(ch, v, cap); packages[|packages| - 1].version == ch.target.value.version
  {
    var required := RequiredFloors(ch, v, cap);
    if |required| > 0 && required[|required| - 1].id == ch.target.value.id {
      var last := required[|required| - 1];
      assert last in InRangeFloors(ch.floors, v, ch.target.value.version) && last in ch.floors;
    }
  }

  /** Only the first package is handed out, so the cap on floors per response does not matter. */
  lemma FirstPackageIgnoresCap(ch: Channel, v: Version, cap: nat)
    requires ch.target.Some? && cap >= 1
    ensures PackagesForUpdate(ch, v, cap)[0].version == NextVersion(ch, v)
  {
    var required := InRangeFloors(ch.floors, v, ch.target.value.version);
    if required != [] {
      assert Cut(required, cap)[0] == required[0];
    }
  }

  /** A client that is behind the target is always moved strictly forward. */
  lemma NextVersionAdvances(ch: Channel, v: Version)
    requires ch.target.Some? && Less(v, ch.target.value.version)
    ensures Less(v, NextVersion(ch, v))
  {
    var required := InRangeFloors(ch.floors, v, ch.target.value.version);
    if required != [] {
      assert required[0] in required;
    }
  }

  /** A floor that is still ahead of `f` was already ahead of any earlier client version. */
  lemma InRangeShrinks(floors: seq<Package>, v: Version, f: Version, t: Version)
    requires v.core <= f.core
    ensures |InRangeFloors(floors, f, t)| <= |InRangeFloors(floors, v, t)|
    ensures (exists p | p in floors :: p.version == f && InRange(v, f, t))
            ==> |InRangeFloors(floors, f, t)| < |InRangeFloors(floors, v, t)|
  {
    if floors != [] {
      InRangeShrinks(floors[1..], v, f, t);
      if exists p | p in floors :: p.version == f && InRange(v, f, t) {
        var p :| p in floors && p.version == f && InRange(v, f, t);
        assert p == floors[0] || p in floors[1..];
      }
    }
  }

  /** The versions a client starting at `v` is handed, one after another, until nothing is offered. */
  function Walk(ch: Channel, v: Version): (path: seq<Version>)
    requires ch.target.Some?
    ensures Less(v, ch.target.value.version) <==> path != []
    decreases |InRangeFloors(ch.floors, v, ch.target.value.version)|
  {
    var t := ch.target.value.version;
    if !Less(v, t) then []
    else
      var required := InRangeFloors(ch.floors, v, t);
      if required == [] then [t]
      else
        var f := required[0].version;
        assert required[0] in required;
        InRangeShrinks(ch.floors, v, f, t);
        [f] + Walk(ch, f)
  }

  /** The floors strictly between `v` and `t` by semantic version, in the order of `floors`. */
  function FloorsBetween(floors: seq<Package>, v: Version, t: Version): seq<Version> {
    if floors == [] then []
    else
      var rest := FloorsBetween(floors[1..], v, t);
      if Less(v, floors[0].version) && Less(floors[0].version, t) then [floors[0].version] + rest else rest
  }

  /** Every stop the update policy asks for: each floor in between, then the target. */
  function RequiredStops(ch: Channel, v: Version): seq<Version>
    requires ch.target.Some?
  {
    FloorsBetween(ch.floors, v, ch.target.value.version) + [ch.target.value.version]
  }

  ghost predicate EarlierSameCore(ch: Channel, i: nat)
    requires i < |ch.floors|
  {
    exists k | 0 <= k < i :: ch.floors[k].version.core == ch.floors[i].version.core
  }

  /** No floor of the client's own numeric core lies between it and the target. */
  ghost predicate NothingBehind(ch: Channel, v: Version)
    requires ch.target.Some?
  {
    forall i {:trigger ch.floors[i]} | 0 <= i < |ch.floors| && ch.floors[i].version.core == v.core ::
      !(Less(v, ch.floors[i].version) && Less(ch.floors[i].version, ch.target.value.version))
  }

  /** In each numeric core in range only the first floor may lie before the target, and it does not lie beyond it. */
  ghost predicate OnlyFirstAhead(ch: Channel, v: Version)
    requires ch.target.Some?
  {
    var t := ch.target.value.version;
    forall i | 0 <= i < |ch.floors| && InRange(v, ch.floors[i].version, t) ::
      if EarlierSameCore(ch, i) then !Less(ch.floors[i].version, t) else !Less(t, ch.floors[i].version)
  }

  /**
   When the numeric range query and the semantic version order agree on what lies ahead of a client
   at `v`: no floor hides behind the client's own numeric core, and in each numeric core ahead only
   the first floor may lie before the target and it must not lie beyond it.
   */
  ghost predicate OrdersAgree(ch: Channel, v: Version)
    requires ch.target.Some?
  {
    NothingBehind(ch, v) && OnlyFirstAhead(ch, v)
  }

  lemma FloorsBetweenAppend(x: seq<Package>, y: seq<Package>, v: Version, t: Version)
    ensures FloorsBetween(x + y, v, t) == FloorsBetween(x, v, t) + FloorsBetween(y, v, t)
  {
    if x == [] {
      assert x + y == y;
    } else {
      assert (x + y)[1..] == x[1..] + y;
      FloorsBetweenAppend(x[1..], y, v, t);
    }
  }

  /** Index of the first floor whose numeric core is beyond `v`. */
  function FirstBeyond(floors: seq<Package>, v: Version): (a: nat)
    ensures a <= |floors|
    ensures forall i | 0 <= i < a :: floors[i].version.core <= v.core
    ensures a < |floors| ==> floors[a].version.core > v.core
  {
    if floors == [] || floors[0].version.core > v.core then 0 else 1 + FirstBeyond(floors[1..], v)
  }

  lemma InRangeFloorsFirst(floors: seq<Package>, v: Version, t: Version)
    requires forall i, j | 0 <= i < j < |floors| :: floors[i].version.core <= floors[j].version.core
    requires InRangeFloors(floors, v, t) != []
    ensures FirstBeyond(floors, v) < |floors|
    ensures InRangeFloors(floors, v, t)[0] == floors[FirstBeyond(floors, v)]
  {
    if !InRange(v, floors[0].version, t) {
      var p := InRangeFloors(floors, v, t)[0];
      assert p in floors[1..];
      InRangeFloorsFirst(floors[1..], v, t);
    }
  }

  /** What a walk offers after `v` either is the target or lies in a later numeric core. */
  lemma {:induction false} WalkGoesAhead(ch: Channel, v: Version)
    requires ch.target.Some?
    ensures forall x | x in Walk(ch, v) :: x == ch.target.value.version || v.core < x.core
    decreases |InRangeFloors(ch.floors, v, ch.target.value.version)|
  {
    var t := ch.target.value.version;
    var required := InRangeFloors(ch.floors, v, t);
    if Less(v, t) && required != [] {
      var f := required[0].version;
      assert required[0] in required;
      InRangeShrinks(ch.floors, v, f, t);
      WalkGoesAhead(ch, f);
    }
  }

  lemma NoneBetween(floors: seq<Package>, v: Version, t: Version)
    ensures FloorsBetween(floors, v, t) == [] <==>
            forall p | p in floors :: !(Less(v, p.version) && Less(p.version, t))
  {
    if floors != [] {
      NoneBetween(floors[1..], v, t);
      assert forall p | p in floors :: p == floors[0] || p in floors[1..];
      assert floors[0] in floors;
    }
  }

  lemma SameBeyond(floors: seq<Package>, v: Version, g: Version, t: Version)
    requires v.core < g.core
    requires forall p | p in floors :: g.core < p.version.core
    ensures FloorsBetween(floors, v, t) == FloorsBetween(floors, g, t)
  {
    if floors != [] {
      assert floors[0] in floors;
      SameBeyond(floors[1..], v, g, t);
    }
  }

  /** The stops, cut at the numeric core of the first floor ahead. */
  lemma {:induction false} StopsByCore(before: seq<Package>, p: Package, block: seq<Package>, beyond: seq<Package>,
                                       v: Version, t: Version)
    requires forall q | q in before :: q.version.core <= v.core
    requires v.core < p.version.core
    requires forall q | q in block :: q.version.core == p.version.core
    requires forall q | q in beyond :: q.version.core > p.version.core
    requires Less(p.version, t)
    ensures FloorsBetween(before + ([p] + (block + beyond)), v, t)
            == FloorsBetween(before, v, t) + ([p.version] + (FloorsBetween(block, v, t) + FloorsBetween(beyond, v, t)))
    ensures FloorsBetween(before + ([p] + (block + beyond)), p.version, t)
            == FloorsBetween(block, p.version, t) + FloorsBetween(beyond, v, t)
  {
    StopsSplit(before, p, block, beyond, v, t);
    StopsSplit(before, p, block, beyond, p.version, t);
    NoneBetween(before, p.version, t);
    SameBeyond(beyond, v, p.version, t);
    assert FloorsBetween([p], v, t) == [p.version] && FloorsBetween([p], p.version, t) == [];
  }

  lemma {:induction false} StopsSplit(before: seq<Package>, p: Package, block: seq<Package>, beyond: seq<Package>,
                                      u: Version, t: Version)
    ensures FloorsBetween(before + ([p] + (block + beyond)), u, t)
            == FloorsBetween(before, u, t)
               + (FloorsBetween([p], u, t) + (FloorsBetween(block, u, t) + FloorsBetween(beyond, u, t)))
  {
    FloorsBetweenAppend(before, [p] + (block + beyond), u, t);
    FloorsBetweenAppend([p], block + beyond, u, t);
    FloorsBetweenAppend(block, beyond, u, t);
  }

  /** The floors around the first floor ahead of `v`, which is `floors[a]`; `b` ends its numeric core. */
  ghost predicate FirstAhead(ch: Channel, v: Version, a: nat, b: nat) {
    && WellFormed(ch)
    && a < b <= |ch.floors|
    && InRange(v, ch.floors[a].version, ch.target.value.version)
    && (forall i | 0 <= i < a :: ch.floors[i].version.core <= v.core)
    && (forall i | a <= i < b :: ch.floors[i].version.core == ch.floors[a].version.core)
    && (forall i | b <= i < |ch.floors| :: ch.floors[i].version.core > ch.floors[a].version.core)
  }

  lemma {:induction false} FindFirstAhead(ch: Channel, v: Version) returns (a: nat, b: nat)
    requires WellFormed(ch) && InRangeFloors(ch.floors, v, ch.target.value.version) != []
    ensures FirstAhead(ch, v, a, b)
    ensures InRangeFloors(ch.floors, v, ch.target.value.version)[0] == ch.floors[a]
  {
    hide InRangeFloors, FirstBeyond;
    var t := ch.target.value.version;
    InRangeFloorsFirst(ch.floors, v, t);
    a := FirstBeyond(ch.floors, v);
    b := FirstBeyond(ch.floors, ch.floors[a].version);
    assert InRangeFloors(ch.floors, v, t)[0] in InRangeFloors(ch.floors, v, t);
  }

  lemma {:induction false} StopsAround(ch: Channel, v: Version, a: nat, b: nat)
    requires FirstAhead(ch, v, a, b) && Less(ch.floors[a].version, ch.target.value.version)
    ensures var t := ch.target.value.version; var g := ch.floors[a].version;
            && FloorsBetween(ch.floors, v, t)
               == FloorsBetween(ch.floors[..a], v, t)
                  + ([g] + (FloorsBetween(ch.floors[a + 1..b], v, t) + FloorsBetween(ch.floors[b..], v, t)))
            && FloorsBetween(ch.floors, g, t)
               == FloorsBetween(ch.floors[a + 1..b], g, t) + FloorsBetween(ch.floors[b..], v, t)
  {
    assert ch.floors == ch.floors[..a] + ([ch.floors[a]] + (ch.floors[a + 1..b] + ch.floors[b..]));
    StopsByCore(ch.floors[..a], ch.floors[a], ch.floors[a + 1..b], ch.floors[b..], v, ch.target.value.version);
  }

  /** Agreement at `v`: nothing hides behind `v`, and the rest of the first core does not lie before the target. */
  lemma {:induction false} AgreeUnfold(ch: Channel, v: Version, a: nat, b: nat)
    requires FirstAhead(ch, v, a, b) && Less(ch.floors[a].version, ch.target.value.version)
    ensures OrdersAgree(ch, v) <==>
            && FloorsBetween(ch.floors[..a], v, ch.target.value.version) == []
            && (forall i | a < i < b :: !Less(ch.floors[i].version, ch.target.value.version))
            && OrdersAgree(ch, ch.floors[a].version)
  {
    BehindUnfold(ch, v, a, b);
    AheadUnfold(ch, v, a, b);
    hide FirstAhead, Less, FloorsBetween, NothingBehind, OnlyFirstAhead;
  }

  lemma {:induction false} BehindUnfold(ch: Channel, v: Version, a: nat, b: nat)
    requires FirstAhead(ch, v, a, b) && Less(ch.floors[a].version, ch.target.value.version)
    ensures NothingBehind(ch, v) <==> FloorsBetween(ch.floors[..a], v, ch.target.value.version) == []
    ensures NothingBehind(ch, ch.floors[a].version) <==>
            forall i | a < i < b :: !(Less(ch.floors[a].version, ch.floors[i].version)
                                      && Less(ch.floors[i].version, ch.target.value.version))
  {
    NoneBetween(ch.floors[..a], v, ch.target.value.version);
    hide FloorsBetween;
    assert forall i | 0 <= i < a :: ch.floors[..a][i] == ch.floors[i] && ch.floors[i] in ch.floors[..a];
  }

  lemma {:induction false} AheadUnfold(ch: Channel, v: Version, a: nat, b: nat)
    requires FirstAhead(ch, v, a, b) && Less(ch.floors[a].version, ch.target.value.version)
    ensures OnlyFirstAhead(ch, v) <==>
            && (forall i | a < i < b :: !Less(ch.floors[i].version, ch.target.value.version))
            && OnlyFirstAhead(ch, ch.floors[a].version)
  {
    assert forall i | a <= i < b :: EarlierSameCore(ch, i) <==> i > a;
    assert !Less(ch.target.value.version, ch.floors[a].version);
    hide EarlierSameCore, Less;
  }

  /** When a list of stops, cut at the first core ahead, is the offer `g` followed by the walk `w`. */
  lemma {:induction false} StopsAreWalk(before: seq<Version>, g: Version, block: seq<Version>, beyond: seq<Version>,
                                        t: Version, w: seq<Version>)
    requires forall x | x in before :: x != g
    requires forall x | x in block :: x.core == g.core && x != t
    requires forall x | x in w :: x == t || g.core < x.core
    ensures before + ([g] + (block + beyond)) + [t] == [g] + w <==> before == [] && block == [] && w == beyond + [t]
  {
    var stops := before + ([g] + (block + beyond)) + [t];
    assert before != [] ==> stops[0] == before[0] && before[0] in before;
    assert before == [] ==> stops == [g] + (block + (beyond + [t])) && stops[1..] == block + (beyond + [t]);
    assert block != [] ==> block[0] in block && (block + (beyond + [t]))[0] == block[0];
    assert block == [] ==> block + (beyond + [t]) == beyond + [t];
    if stops == [g] + w {
      assert stops[0] == g && stops[1..] == w;
      assert w != [] ==> w[0] in w;
    }
  }

  /** One stop of the walk: a floor that lies before the target. */
  lemma {:induction false} StopsAreWalkIff(ch: Channel, v: Version, a: nat, b: nat)
    requires FirstAhead(ch, v, a, b) && Less(ch.floors[a].version, ch.target.value.version)
    ensures var t := ch.target.value.version; var g := ch.floors[a].version;
            RequiredStops(ch, v) == [g] + Walk(ch, g) <==>
            && FloorsBetween(ch.floors[..a], v, t) == []
            && FloorsBetween(ch.floors[a + 1..b], v, t) == []
            && Walk(ch, g) == FloorsBetween(ch.floors[b..], v, t) + [t]
  {
    var t, g := ch.target.value.version, ch.floors[a].version;
    StopsAround(ch, v, a, b);
    BeforeCore(ch.floors[..a], v, t);
    BlockCore(ch.floors[a + 1..b], g.core, v, t);
    WalkGoesAhead(ch, g);
    StopsAreWalk(FloorsBetween(ch.floors[..a], v, t), g, FloorsBetween(ch.floors[a + 1..b], v, t),
                 FloorsBetween(ch.floors[b..], v, t), t, Walk(ch, g));
  }

  lemma {:induction false} AgreeStep(ch: Channel, v: Version, a: nat, b: nat)
    requires FirstAhead(ch, v, a, b) && Less(ch.floors[a].version, ch.target.value.version)
    requires Walk(ch, ch.floors[a].version) == RequiredStops(ch, ch.floors[a].version)
             <==> OrdersAgree(ch, ch.floors[a].version)
    ensures RequiredStops(ch, v) == [ch.floors[a].version] + Walk(ch, ch.floors[a].version) <==> OrdersAgree(ch, v)
  {
    hide OrdersAgree, Walk, FloorsBetween, InRange;
    StopsAreWalkIff(ch, v, a, b);
    AgreeUnfold(ch, v, a, b);
    BlockBetween(ch, v, a, b);
    StopsAround(ch, v, a, b);
    var t, g := ch.target.value.version, ch.floors[a].version;
    assert FloorsBetween(ch.floors[a + 1..b], v, t) == [] ==>
        RequiredStops(ch, g) == [] + FloorsBetween(ch.floors[b..], v, t) + [t];
  }

  lemma {:induction false} BlockBetween(ch: Channel, v: Version, a: nat, b: nat)
    requires FirstAhead(ch, v, a, b)
    ensures FloorsBetween(ch.floors[a + 1..b], v, ch.target.value.version) == [] <==>
            forall i | a < i < b :: !Less(ch.floors[i].version, ch.target.value.version)
    ensures FloorsBetween(ch.floors[a + 1..b], v, ch.target.value.version) == [] ==>
            FloorsBetween(ch.floors[a + 1..b], ch.floors[a].version, ch.target.value.version) == []
  {
    var t := ch.target.value.version;
    NoneBetween(ch.floors[a + 1..b], v, t);
    NoneBetween(ch.floors[a + 1..b], ch.floors[a].version, t);
    forall i | a < i < b
      ensures ch.floors[i] in ch.floors[a + 1..b]
    {
      assert ch.floors[a + 1..b][i - a - 1] == ch.floors[i];
    }
  }

  lemma BeforeCore(floors: seq<Package>, v: Version, t: Version)
    requires forall i | 0 <= i < |floors| :: floors[i].version.core <= v.core
    ensures forall x | x in FloorsBetween(floors, v, t) :: x.core == v.core
  {
  }

  lemma BlockCore(floors: seq<Package>, core: nat, v: Version, t: Version)
    requires forall i | 0 <= i < |floors| :: floors[i].version.core == core
    ensures forall x | x in FloorsBetween(floors, v, t) :: x.core == core && Less(x, t)
  {
  }

  /** The first offer is the target itself or already lies beyond it. */
  lemma {:induction false} AgreeAtLastStop(ch: Channel, v: Version, a: nat, b: nat)
    requires FirstAhead(ch, v, a, b) && !Less(ch.floors[a].version, ch.target.value.version)
    requires Less(v, ch.target.value.version)
    ensures RequiredStops(ch, v) == [ch.floors[a].version] <==> OrdersAgree(ch, v)
  {
    AgreeAtCore(ch, v, a, b);
    NoneBetween(ch.floors, v, ch.target.value.version);
    assert forall i | 0 <= i < |ch.floors| :: ch.floors[i] in ch.floors;
    OneStopIff(ch, v, ch.floors[a].version);
    hide FirstAhead, Less, FloorsBetween, OrdersAgree, RequiredStops;
  }

  lemma {:induction false} AgreeAtCore(ch: Channel, v: Version, a: nat, b: nat)
    requires FirstAhead(ch, v, a, b) && !Less(ch.floors[a].version, ch.target.value.version)
    ensures OrdersAgree(ch, v) <==>
            && ch.floors[a].version == ch.target.value.version
            && forall i | 0 <= i < |ch.floors| ::
                 !(Less(v, ch.floors[i].version) && Less(ch.floors[i].version, ch.target.value.version))
  {
    assert ch.floors[a].version.core == ch.target.value.version.core;
    assert forall i | a <= i < b :: EarlierSameCore(ch, i) <==> i > a;
    hide EarlierSameCore;
  }

  /** A client has one stop only when no floor lies between it and the target. */
  lemma {:induction false} OneStopIff(ch: Channel, v: Version, g: Version)
    requires ch.target.Some?
    ensures RequiredStops(ch, v) == [g] <==>
            g == ch.target.value.version && FloorsBetween(ch.floors, v, ch.target.value.version) == []
  {
    var between := FloorsBetween(ch.floors, v, ch.target.value.version);
    hide FloorsBetween;
    assert RequiredStops(ch, v) == between + [ch.target.value.version];
    if RequiredStops(ch, v) == [g] {
      assert RequiredStops(ch, v)[|between|] == ch.target.value.version;
    }
  }

  lemma {:induction false} AgreeAtTarget(ch: Channel, v: Version)
    requires WellFormed(ch) && Less(v, ch.target.value.version)
    requires InRangeFloors(ch.floors, v, ch.target.value.version) == []
    ensures RequiredStops(ch, v) == [ch.target.value.version] <==> OrdersAgree(ch, v)
  {
    var t := ch.target.value.version;
    NoneBetween(ch.floors, v, t);
    assert forall i | 0 <= i < |ch.floors| :: ch.floors[i] in ch.floors;
    if RequiredStops(ch, v) == [t] {
      assert |FloorsBetween(ch.floors, v, t)| == 0;
    }
  }

  /**
   A client that is behind the target is led through every floor in between, in order and with none
   skipped, and stops at the target, exactly when the two version orders agree on the way ahead.
   */
  lemma {:induction false} WalkVisitsEveryFloorIff(ch: Channel, v: Version)
    requires WellFormed(ch) && Less(v, ch.target.value.version)
    ensures Walk(ch, v) == RequiredStops(ch, v) <==> OrdersAgree(ch, v)
    decreases |InRangeFloors(ch.floors, v, ch.target.value.version)|
  {
    var t := ch.target.value.version;
    var required := InRangeFloors(ch.floors, v, t);
    if required == [] {
      AgreeAtTarget(ch, v);
    } else {
      var a, b := FindFirstAhead(ch, v);
      var g := ch.floors[a].version;
      if Less(g, t) {
        InRangeShrinks(ch.floors, v, g, t);
        WalkVisitsEveryFloorIff(ch, g);
        AgreeStep(ch, v, a, b);
      } else {
        AgreeAtLastStop(ch, v, a, b);
        assert Walk(ch, v) == [g];
      }
    }
  }

  /** The stops are exactly the floors in between and the target. */
  lemma {:induction false} StopsAreFloorsAndTarget(ch: Channel, v: Version, x: Version)
    requires ch.target.Some?
    ensures x in RequiredStops(ch, v) <==>
            || x == ch.target.value.version
            || exists p | p in ch.floors :: p.version == x && Less(v, x) && Less(x, ch.target.value.version)
  {
    BetweenIsFloor(ch.floors, v, ch.target.value.version, x);
  }

  lemma BetweenIsFloor(floors: seq<Package>, v: Version, t: Version, x: Version)
    ensures x in FloorsBetween(floors, v, t) <==> exists p | p in floors :: p.version == x && Less(v, x) && Less(x, t)
  {
    if floors != [] {
      BetweenIsFloor(floors[1..], v, t, x);
      assert forall p | p in floors :: p == floors[0] || p in floors[1..];
      assert floors[0] in floors;
    }
  }

  /** A walk never goes back. */
  lemma {:induction false} WalkAscends(ch: Channel, v: Version)
    requires ch.target.Some?
    ensures forall i | 0 <= i < |Walk(ch, v)| :: Less(v, Walk(ch, v)[i])
    ensures forall i, j | 0 <= i < j < |Walk(ch, v)| :: Less(Walk(ch, v)[i], Walk(ch, v)[j])
    decreases |InRangeFloors(ch.floors, v, ch.target.value.version)|
  {
    var t := ch.target.value.version;
    var required := InRangeFloors(ch.floors, v, t);
    if Less(v, t) && required != [] {
      var f := required[0].version;
      assert required[0] in required;
      InRangeShrinks(ch.floors, v, f, t);
      WalkAscends(ch, f);
      assert Walk(ch, v) == [f] + Walk(ch, f);
    }
  }

  /** One round of the walk. */
  lemma WalkStep(ch: Channel, v: Version)
    requires ch.target.Some? && Less(v, ch.target.value.version)
    ensures Walk(ch, v) == [NextVersion(ch, v)] + Walk(ch, NextVersion(ch, v))
  {
  }
}
