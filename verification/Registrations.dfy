/** What a registration leaves on record: the instance's metadata, its check-in, and nothing of any other instance. */
module Registrations {
  import opened Wrappers
  import opened Runtime

  /** SQL's LIKE for patterns without '%': an underscore stands for any character. */
  predicate Like(s: string, pattern: string) {
    |s| == |pattern| && forall k | 0 <= k < |pattern| :: pattern[k] == '_' || s[k] == pattern[k]
  }

  /** The instances left out of the statistics are those whose id is a UUID in braces. */
  lemma {:induction false} FakeIsBracedUuid(id: string)
    ensures IsFake(id) <==> Like(id, "{________-____-____-____-____________}")
  {
    var pattern := "{________-____-____-____-____________}";
    assert |pattern| == 38 && pattern[0] == '{' && pattern[9] == '-' && pattern[14] == '-' && pattern[19] == '-'
        && pattern[24] == '-' && pattern[37] == '}';
  }

  /** A row that says all that a check-in would write, and was written within five minutes. */
  predicate UpToDate(db: Db, now: int, req: Request) {
    && req.instance in db.rows && req.version == Some(db.rows[req.instance].version)
    && db.rows[req.instance].group == req.group
    && now - RECENT <= db.rows[req.instance].lastCheck && now < db.rows[req.instance].lastCheck + VALIDITY
  }

  /** The metadata on record after a request: what the client leaves empty stays as it was, except for the address. */
  predicate Describes(before: Option<Metadata>, given: Metadata, after: Metadata) {
    && after.ip == given.ip
    && after.alias == (if given.alias == "" && before.Some? then before.value.alias else given.alias)
    && after.oem == (if given.oem == "" && before.Some? then before.value.oem else given.oem)
    && after.aleph == (if given.aleph == "" && before.Some? then before.value.aleph else given.aleph)
  }

  /** The row after a check-in that is recorded. */
  function CheckIn(db: Db, now: int, req: Request): Row
    requires req.version.Some?
  {
    if req.instance in db.rows then
      db.rows[req.instance].(group := req.group, version := req.version.value, lastCheck := now)
    else Row(req.group, req.version.value, None, now, None, None, false, [])
  }

  /**
   A registration writes the metadata of its instance, and its check-in unless the row of a known instance is up to
   date. Groups and other instances are left alone. The caller sees the row as it is now, or when metadata or
   check-in did not need writing as it was before, provided it was not silent for a day.
   */
  lemma {:induction false} RegistrationRecords(db: Db, now: int, req: Request)
    requires req.version.Some? && req.group in db.groups
    ensures Register(db, now, req).Some?
    ensures var after, i := Register(db, now, req).value.db, req.instance;
            && after.groups == db.groups
            && i in after.instances && after.instances == db.instances[i := after.instances[i]]
            && Describes(if i in db.instances then Some(db.instances[i]) else None, req.metadata, after.instances[i])
            && after.rows == if i in db.instances && UpToDate(db, now, req) then db.rows
                             else db.rows[i := CheckIn(db, now, req)]
    ensures var after, i, seen := Register(db, now, req).value.db, req.instance, Register(db, now, req).value.snapshot;
            if i in db.instances && i in after.instances
               && (after.instances[i] == db.instances[i] || UpToDate(db, now, req)) then
              seen == if i in db.rows && now < db.rows[i].lastCheck + VALIDITY then Some(db.rows[i]) else None
            else i in after.rows && seen == Some(after.rows[i])
  {
    var i := req.instance;
    if i in db.instances {
      assert db.instances == db.instances[i := db.instances[i]];
    }
    hide IsFake;
  }
}
