/**
 Package and instance versions.

 The program compares versions in two different ways. Go code uses semantic versioning, where a
 prerelease tag matters. The floor queries cut the string at the first '+' or '-' and compare the
 numeric triple only. A version is therefore a pair: `core` ranks the numeric triple and `tag` the
 prerelease tag, a release having a greater tag than each of its prereleases.
 */
module Versions {

  datatype Version = Version(core: nat, tag: int)

  /** Semantic version order, as `semver.LT` computes it. */
  predicate Less(a: Version, b: Version) {
    a.core < b.core || (a.core == b.core && a.tag < b.tag)
  }
}
