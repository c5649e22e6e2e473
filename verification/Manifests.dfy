/**
 The update-check reply to a syncer: one manifest per package, floors and target flagged. Versions are
 sent as text; `text` says how a version is written.
 */
module Manifests {
  import opened Versions
  import opened Wrappers
  import opened Floors

  const UINT64: nat := 0x1_0000_0000_0000_0000

  // ----- sizes as text -----

  predicate IsDigit(c: char) {
    '0' <= c <= '9'
  }

  function Digit(c: char): nat
    requires IsDigit(c)
  {
    c as int - '0' as int
  }

  function Numeral(s: string): nat
    requires forall c | c in s :: IsDigit(c)
  {
    if s == "" then 0 else 10 * Numeral(s[..|s| - 1]) + Digit(s[|s| - 1])
  }

  /** `strconv.ParseUint` with base 10 and 64 bits. */
  function ParseUint(s: string): Option<nat> {
    if s != "" && (forall c | c in s :: IsDigit(c)) && Numeral(s) < UINT64 then Some(Numeral(s)) else None
  }

  /** `strconv.FormatUint` with base 10. */
  function FormatUint(n: nat): (s: string)
    ensures s != "" && forall c | c in s :: IsDigit(c)
  {
    var last := ('0' as int + n % 10) as char;
    if n < 10 then [last] else FormatUint(n / 10) + [last]
  }

  lemma {:induction false} FormatThenParse(n: nat)
    requires n < UINT64
    ensures ParseUint(FormatUint(n)) == Some(n)
  {
    NumeralOfFormat(n);
  }

  lemma {:induction false} NumeralOfFormat(n: nat)
    ensures Numeral(FormatUint(n)) == n
  {
    var s := FormatUint(n);
    if n < 10 {
      assert s[..|s| - 1] == "" && Digit(s[0]) == n;
    } else {
      NumeralOfFormat(n / 10);
      assert s[..|s| - 1] == FormatUint(n / 10);
    }
  }

  /** A size that cannot be parsed is sent as zero. */
  function SizeOf(s: string): nat {
    match ParseUint(s)
    case Some(n) => n
    case None => 0
  }

  // ----- manifests -----

  datatype OmahaPackage = OmahaPackage(name: string, sha1: string, sha256: string, size: nat)

  datatype Manifest = Manifest(version: string, packages: seq<OmahaPackage>, actions: seq<FlatcarAction>,
                               isFloor: bool, floorReason: string, isTarget: bool)

  datatype Reply = NoUpdate | InternalError | UpdateOk(manifests: seq<Manifest>)

  const DEFAULT_FLOOR_REASON := "Required intermediate version"

  /** `addPackageToManifest`: the payload, then the extra files. */
  function OmahaPackages(p: Payload): seq<OmahaPackage> {
    [OmahaPackage(p.filename, p.sha1, "", SizeOf(p.size))]
    + seq(|p.files|, k requires 0 <= k < |p.files| =>
          OmahaPackage(p.files[k].name, p.files[k].sha1, p.files[k].sha256, SizeOf(p.files[k].size)))
  }

  function ManifestOf(text: Version -> string, p: Package, isTarget: bool): Manifest {
    Manifest(text(p.version), OmahaPackages(p.payload),
             if p.payload.flatcar && p.payload.action.Some? then [p.payload.action.value] else [],
             p.isFloor,
             if !p.isFloor then "" else if p.floorReason.Some? then p.floorReason.value else DEFAULT_FLOOR_REASON,
             isTarget)
  }

  function ManifestsOf(text: Version -> string, packages: seq<Package>): seq<Manifest> {
    seq(|packages|, k requires 0 <= k < |packages| => ManifestOf(text, packages[k], k == |packages| - 1))
  }

  /**
   The part of `buildOmahaResponse` for a syncer that was given `packages`, with
   `prepareMultiManifestUpdateCheck`.
   */
  function SyncerReply(text: Version -> string, packages: seq<Package>, multiManifestOk: bool): Reply {
    if packages == [] then NoUpdate
    else if (exists p | p in packages :: p.isFloor) && !multiManifestOk then NoUpdate
    else if exists p | p in packages :: !Offerable(p) then InternalError
    else UpdateOk(ManifestsOf(text, packages))
  }

  lemma OneMoreManifest(text: Version -> string, packages: seq<Package>, k: nat)
    requires k < |packages|
    ensures |ManifestsOf(text, packages)| == |packages| && packages[k] in packages
    ensures ManifestsOf(text, packages)[..k + 1]
            == ManifestsOf(text, packages)[..k] + [ManifestOf(text, packages[k], k == |packages| - 1)]
  {
  }

  /** The same as loops: look for floors, then add a manifest per package. */
  method BuildSyncerReply(text: Version -> string, packages: seq<Package>, multiManifestOk: bool) returns (reply: Reply)
    ensures reply == SyncerReply(text, packages, multiManifestOk)
  {
    if |packages| == 0 {
      return NoUpdate;
    }
    var hasFloors := false;
    for k := 0 to |packages|
      invariant hasFloors <==> exists p | p in packages[..k] :: p.isFloor
    {
      assert packages[..k + 1] == packages[..k] + [packages[k]];
      if packages[k].isFloor {
        hasFloors := true;
        break;
      }
    }
    assert packages[..|packages|] == packages;
    assert hasFloors <==> exists p | p in packages :: p.isFloor;
    if hasFloors && !multiManifestOk {
      return NoUpdate;
    }
    var manifests: seq<Manifest> := [];
    assert |ManifestsOf(text, packages)| == |packages|;
    hide OmahaPackages, ManifestsOf;
    for k := 0 to |packages|
      invariant |ManifestsOf(text, packages)| == |packages| && manifests == ManifestsOf(text, packages)[..k]
      invariant forall j | 0 <= j < k :: Offerable(packages[j])
    {
      var p := packages[k];
      OneMoreManifest(text, packages, k);
      if !Offerable(p) {
        return InternalError;
      }
      var reason := "";
      if p.isFloor {
        reason := if p.floorReason.Some? then p.floorReason.value else DEFAULT_FLOOR_REASON;
      }
      var actions := if p.payload.flatcar then [p.payload.action.value] else [];
      manifests := manifests + [Manifest(text(p.version), OmahaPackages(p.payload), actions, p.isFloor, reason,
          k == |packages| - 1)];
    }
    return UpdateOk(manifests);
  }
}
