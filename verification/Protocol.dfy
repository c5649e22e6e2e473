/**
 The update client and the server together: repeated `TryUpdate` rounds lead a client through the
 floors of its channel, also when rounds fail, messages get lost, and other instances and administrators use
 the server in between.
 */
module Protocol {
  import opened Versions
  import opened Wrappers
  import opened Floors
  import opened Runtime
  import opened RuntimeRuns
  import opened RuntimeService
  import opened Bystanders

  /** `EventTypeInstallComplete` of the Omaha protocol; the server has no such event type. */
  const EVENT_INSTALL_COMPLETE := 2

  const EVENT_RESULT_ERROR := 0

  /** Who the client is and which group its track leads to. */
  datatype Identity = Identity(instance: string, metadata: Metadata, group: string)

  /** What becomes of a message: it is answered, it never reaches the server, or the answer never comes back. */
  datatype Wire = Arrives | RequestLost | ReplyLost

  /** `others` is what else happens on the server before this message could reach it. */
  datatype Message = Message(at: int, wire: Wire, others: seq<Step>)

  /**
   One round: its messages, and how the update handler fares. `downloaded` is sent after fetching and
   `installed` after applying; they report an error when the handler failed.
   */
  datatype Round = Round(check: Message, officeHours: bool, downloaded: Message, installed: Message,
                         completed: Message, fetched: bool, applied: bool)

  datatype Answer = Offer(version: Version) | Nothing | NoAnswer

  datatype TryResult = Updated(version: Version) | NoUpdate | Failed

  datatype TryOutcome = TryOutcome(db: Db, version: Version, result: TryResult)

  /** The server finds a group by its track only if the group has a channel. */
  predicate TrackResolves(db: Db, group: string) {
    group in db.groups && db.groups[group].channel.Some?
  }

  function CheckRequest(id: Identity, v: Version): Request {
    Request(id.instance, id.metadata, Some(v), id.group)
  }

  function EventOf(id: Identity, etype: int, result: int): Event {
    Event(id.instance, id.group, etype, result, "")
  }

  /** How the server answers an update check: the version offered, if the response says there is an update. */
  function Serve(db: Db, cfg: Config, clock: Clock, id: Identity, v: Version): (Db, Option<Version>) {
    if !TrackResolves(db, id.group) then (db, None)
    else
      match Check(db, cfg, clock, CheckRequest(id, v))
      case Outcome(db', Ok(package)) => (db', if Offerable(package) then Some(package.version) else None)
      case Outcome(db', Err(_)) => (db', None)
  }

  function Meanwhile(db: Db, node: Node, m: Message): Db {
    Exec(db, node, m.others)
  }

  /** The update check of a round, over the wire. */
  function Ask(db: Db, node: Node, round: Round, id: Identity, v: Version): (Db, Answer) {
    var db0 := Meanwhile(db, node, round.check);
    if round.check.wire == RequestLost then (db0, NoAnswer)
    else
      var (db', offer) := Serve(db0, node.cfg, Clock(round.check.at, round.officeHours), id, v);
      (db', if round.check.wire == ReplyLost then NoAnswer
            else if offer.Some? then Offer(offer.value) else Nothing)
  }

  /** An event that arrives. */
  function Deliver(db: Db, cfg: Config, m: Message, id: Identity, etype: int, result: int): Db {
    if m.wire != RequestLost && TrackResolves(db, id.group) then
      HandleEvent(db, cfg, m.at, EventOf(id, etype, result)).db
    else db
  }

  /** An event over the wire. */
  function Tell(db: Db, node: Node, m: Message, id: Identity, etype: int, result: int): Db {
    Deliver(Meanwhile(db, node, m), node.cfg, m, id, etype, result)
  }

  /** The response to an event says ok whatever became of the event, if the track resolves. */
  predicate Told(db: Db, node: Node, m: Message, id: Identity) {
    m.wire == Arrives && TrackResolves(Meanwhile(db, node, m), id.group)
  }

  /** One `TryUpdate`, as seen from the server's tables and the client's version. */
  function Attempt(db: Db, node: Node, id: Identity, v: Version, round: Round): TryOutcome {
    match Ask(db, node, round, id, v)
    case (db1, NoAnswer) => TryOutcome(db1, v, Failed)
    case (db1, Nothing) => TryOutcome(db1, v, NoUpdate)
    case (db1, Offer(next)) =>
      if !round.fetched then
        TryOutcome(Tell(db1, node, round.downloaded, id, EVENT_UPDATE_COMPLETE, EVENT_RESULT_ERROR), v, Failed)
      else
        var db2 := Tell(db1, node, round.downloaded, id, EVENT_UPDATE_DOWNLOAD_FINISHED, RESULT_SUCCESS);
        if !Told(db1, node, round.downloaded, id) then TryOutcome(db2, v, Failed)
        else if !round.applied then
          TryOutcome(Tell(db2, node, round.installed, id, EVENT_UPDATE_COMPLETE, EVENT_RESULT_ERROR), v, Failed)
        else
          var db3 := Tell(db2, node, round.installed, id, EVENT_INSTALL_COMPLETE, RESULT_SUCCESS);
          if !Told(db2, node, round.installed, id) then TryOutcome(db3, v, Failed)
          else
            var db4 := Tell(db3, node, round.completed, id, EVENT_UPDATE_COMPLETE, RESULT_SUCCESS);
            if !Told(db3, node, round.completed, id) then TryOutcome(db4, v, Failed)
            else TryOutcome(db4, next, Updated(next))
  }

  /** The client. `single` tells whether the server is a single-instance deployment. */
  class Updater {
    const id: Identity
    const server: Service
    const single: bool
    var instanceVersion: Version

    constructor (id: Identity, server: Service, single: bool, version: Version)
      ensures this.id == id && this.server == server && this.single == single && instanceVersion == version
    {
      this.id, this.server, this.single, instanceVersion := id, server, single, version;
    }

    function ServerNode(): Node {
      Node(server.cfg, single)
    }

    /** One request of somebody else. */
    method OtherActs(step: Step)
      modifies server
      ensures server.State() == Apply(old(server.State()), ServerNode(), step)
    {
      var db := server.State();
      match step.action
      case RegularCheck(req, officeHours) => var _ := server.GetUpdatePackage(Clock(step.now, officeHours), req);
      case MirrorCheck(req, officeHours) =>
        var _ := server.GetUpdatePackagesForSyncer(Clock(step.now, officeHours), req);
      case Ping(req) => var _, _ := server.RegisterInstance(step.now, req);
      case Report(e) => var _ := server.RegisterEvent(step.now, e);
      case _ =>
        var after := Apply(db, ServerNode(), step);
        server.instances, server.groups := after.instances, after.groups;
    }

    /** What happens on the server before a message could reach it. */
    method OthersAct(m: Message)
      modifies server
      ensures server.State() == Meanwhile(old(server.State()), ServerNode(), m)
    {
      for k := 0 to |m.others|
        invariant server.State() == Exec(old(server.State()), ServerNode(), m.others[..k])
      {
        hide Apply;
        assert m.others[..k + 1][..k] == m.others[..k];
        OtherActs(m.others[k]);
      }
      assert m.others[..|m.others|] == m.others;
    }

    method CheckForUpdates(round: Round) returns (answer: Answer)
      modifies server
      ensures (server.State(), answer) == Ask(old(server.State()), ServerNode(), round, id, instanceVersion)
    {
      OthersAct(round.check);
      if round.check.wire == RequestLost {
        return NoAnswer;
      }
      var offer: Option<Version> := None;
      if TrackResolves(server.State(), id.group) {
        var clock := Clock(round.check.at, round.officeHours);
        var result := server.GetUpdatePackage(clock, CheckRequest(id, instanceVersion));
        if result.Ok? && Offerable(result.value) {
          offer := Some(result.value.version);
        }
      }
      if round.check.wire == ReplyLost {
        return NoAnswer;
      }
      return if offer.Some? then Offer(offer.value) else Nothing;
    }

    method ReportProgress(m: Message, etype: int, result: int) returns (ok: bool)
      modifies server
      ensures server.State() == Tell(old(server.State()), ServerNode(), m, id, etype, result)
      ensures ok == Told(old(server.State()), ServerNode(), m, id)
    {
      OthersAct(m);
      if m.wire == RequestLost || !TrackResolves(server.State(), id.group) {
        return false;
      }
      var _ := server.RegisterEvent(m.at, EventOf(id, etype, result));
      return m.wire == Arrives;
    }

    method TryUpdate(round: Round) returns (result: TryResult)
      modifies server, this`instanceVersion
      ensures TryOutcome(server.State(), instanceVersion, result)
              == Attempt(old(server.State()), ServerNode(), id, old(instanceVersion), round)
    {
      var info := CheckForUpdates(round);
      if info.NoAnswer? {
        return Failed;
      }
      if info.Nothing? {
        return NoUpdate;
      }
      if !round.fetched {
        var _ := ReportProgress(round.downloaded, EVENT_UPDATE_COMPLETE, EVENT_RESULT_ERROR);
        return Failed;
      }
      var ok := ReportProgress(round.downloaded, EVENT_UPDATE_DOWNLOAD_FINISHED, RESULT_SUCCESS);
      if !ok {
        return Failed;
      }
      if !round.applied {
        var _ := ReportProgress(round.installed, EVENT_UPDATE_COMPLETE, EVENT_RESULT_ERROR);
        return Failed;
      }
      ok := ReportProgress(round.installed, EVENT_INSTALL_COMPLETE, RESULT_SUCCESS);
      if !ok {
        return Failed;
      }
      ok := ReportProgress(round.completed, EVENT_UPDATE_COMPLETE, RESULT_SUCCESS);
      if !ok {
        return Failed;
      }
      instanceVersion := info.version;
      return Updated(info.version);
    }
  }

  // ----- the setting of the floor walk -----

  /** A group whose channel is `ch`, whose policy does not limit, and whose packages can all be offered. */
  ghost predicate Unlimited(g: Group, ch: Channel, officeHours: bool) {
    && g.channel == Some(ch) && WellFormed(ch)
    && g.UpdatesEnabled() && (g.policy.officeHours ==> officeHours)
    && g.policy.maxUpdates >= MAX_PARALLEL_UPDATES && !g.policy.safeMode
    && Offerable(ch.target.value) && ch.id !in ch.target.value.blacklist
    && forall p | p in ch.floors :: Offerable(p) && ch.id !in p.blacklist
  }

  /** The client's group, as the walk assumes it. */
  ghost predicate InGroup(db: Db, id: Identity, ch: Channel, officeHours: bool) {
    id.group in db.groups && Unlimited(db.groups[id.group], ch, officeHours)
  }

  /** What happens before any message of the round is the doing of others. */
  predicate OthersOnly(cfg: Config, r: Round, id: Identity) {
    && AllForeign(cfg, r.check.others, id.instance, id.group)
    && AllForeign(cfg, r.downloaded.others, id.instance, id.group)
    && AllForeign(cfg, r.installed.others, id.instance, id.group)
    && AllForeign(cfg, r.completed.others, id.instance, id.group)
  }

  lemma OthersLeave(db: Db, node: Node, m: Message, id: Identity, ch: Channel, officeHours: bool)
    requires InGroup(db, id, ch, officeHours) && AllForeign(node.cfg, m.others, id.instance, id.group)
    ensures SameRow(db, Meanwhile(db, node, m), id.instance) && InGroup(Meanwhile(db, node, m), id, ch, officeHours)
    ensures TrackResolves(Meanwhile(db, node, m), id.group)
  {
    ForeignRun(db, node, m.others, id.instance, id.group);
    hide Exec, AllForeign;
  }

  /** The row is idle, or holds a grant for the next version of a client at `v`. */
  predicate CanServe(row: Row, v: Version, ch: Channel)
    requires ch.target.Some?
  {
    row.status.Some? && InProgressStatus(row.status.value) ==>
      && Less(v, ch.target.value.version)
      && row.status == Some(UpdateGranted) && row.inProgress && row.lastUpdateVersion == Some(NextVersion(ch, v))
  }

  /** The server can serve this client at `now`: it is unknown, or on record and recent. */
  predicate Ready(db: Db, now: int, id: Identity, v: Version, ch: Channel)
    requires ch.target.Some?
  {
    if id.instance !in db.instances then id.instance !in db.rows
    else
      && id.instance in db.rows && db.rows[id.instance].lastCheck > now - VALIDITY
      && CanServe(db.rows[id.instance], v, ch)
  }

  /** The longest time within which a check-in is certainly still on record. */
  const MEMORY := VALIDITY - RECENT

  /** The server can serve this client whenever it comes back within `MEMORY` of its check-in at `seen`. */
  predicate Standing(db: Db, seen: int, id: Identity, v: Version, ch: Channel)
    requires ch.target.Some?
  {
    if id.instance !in db.instances then id.instance !in db.rows
    else
      && id.instance in db.rows && db.rows[id.instance].lastCheck >= seen - RECENT
      && CanServe(db.rows[id.instance], v, ch)
  }

  /** All messages of a round are sent while its check-in is on record. */
  predicate Timely(r: Round) {
    && r.downloaded.at < r.check.at + MEMORY && r.installed.at < r.check.at + MEMORY
    && r.completed.at < r.check.at + MEMORY
  }

  /** Everything works. */
  predicate Good(r: Round) {
    && r.fetched && r.applied
    && r.check.wire == Arrives && r.downloaded.wire == Arrives && r.installed.wire == Arrives
    && r.completed.wire == Arrives
  }

  /** The server learns that the download is finished, and nothing of what becomes of it. */
  predicate Wedges(r: Round) {
    && r.check.wire == Arrives && r.fetched && r.downloaded.wire != RequestLost
    && (r.downloaded.wire == ReplyLost
        || if r.applied then r.installed.wire != Arrives || r.completed.wire == RequestLost
           else r.installed.wire == RequestLost)
  }

  predicate ReportsError(r: Round) {
    r.check.wire == Arrives
    && if r.fetched then r.downloaded.wire == Arrives && !r.applied && r.installed.wire != RequestLost
       else r.downloaded.wire != RequestLost
  }

  /** The deployment does not answer this round by disabling updates. */
  predicate Tolerated(cfg: Config, r: Round) {
    cfg.disableUpdatesOnFailedRollout ==> !ReportsError(r)
  }

  /** What the server has on record after a round that took the client to `v`. */
  ghost predicate InStep(db: Db, now: int, id: Identity, v: Version) {
    && id.instance in db.instances && id.instance in db.rows
    && db.rows[id.instance].version == v
    && db.rows[id.instance].status == Some(Complete) && !db.rows[id.instance].inProgress
    && db.rows[id.instance].lastCheck >= now - RECENT
  }

  /** The server has granted `next` and waits to hear of it. */
  ghost predicate Holding(db: Db, now: int, id: Identity, next: Version) {
    && id.instance in db.instances && id.instance in db.rows
    && db.rows[id.instance].status == Some(UpdateGranted) && db.rows[id.instance].inProgress
    && db.rows[id.instance].lastUpdateVersion == Some(next)
    && db.rows[id.instance].lastCheck >= now - RECENT
  }

  /** The server knows of a finished download. */
  ghost predicate Busy(db: Db, id: Identity) {
    && id.instance in db.instances && id.instance in db.rows
    && db.rows[id.instance].status == Some(Downloaded)
  }

  // ----- the check of a round -----

  lemma ReadyRegisters(db: Db, now: int, id: Identity, v: Version, ch: Channel)
    requires ch.target.Some? && Ready(db, now, id, v, ch) && id.group in db.groups
    ensures var r := Register(db, now, CheckRequest(id, v));
            && r.Some? && r.value.snapshot.Some?
            && id.instance in r.value.db.rows && id.instance in r.value.db.instances
            && SameProgress(r.value.snapshot.value, r.value.db.rows[id.instance])
            && CanServe(r.value.snapshot.value, v, ch)
            && r.value.db.rows[id.instance].lastCheck >= now - RECENT
            && Agreed(r.value.db, id, v) && r.value.db.groups == db.groups
  {
    hide NextVersion;
  }

  lemma FirstOffer(ch: Channel, v: Version, cap: nat)
    requires WellFormed(ch) && cap >= 1 && Less(v, ch.target.value.version)
    ensures var p := PackagesForUpdate(ch, v, cap)[0];
            p.version == NextVersion(ch, v) && (p == ch.target.value || p in ch.floors)
  {
    FirstPackageIgnoresCap(ch, v, cap);
    var required := InRangeFloors(ch.floors, v, ch.target.value.version);
    if required != [] {
      assert Cut(required, cap)[0] == required[0] && required[0] in required;
    }
  }

  /** A check by an instance that already holds a grant beyond its version. */
  lemma CheckServesGranted(db: Db, cfg: Config, clock: Clock, req: Request, db1: Db, row: Row, ch: Channel)
    requires req.version.Some? && req.group in db1.groups && req.instance in db1.rows
    requires Register(db, clock.now, req) == Some(Registration(db1, Some(row)))
    requires row.status == Some(UpdateGranted) && row.lastUpdateVersion.Some?
    requires Less(req.version.value, row.lastUpdateVersion.value)
    requires db1.groups[req.group].channel == Some(ch) && ch.target.Some? && ch.id !in ch.target.value.blacklist
    ensures Check(db, cfg, clock, req) == Outcome(db1, Ok(PackagesForUpdate(ch, req.version.value, cfg.maxFloors)[0]))
  {
  }

  /** The check of a round: the next version is offered, and granted unless it already was. */
  lemma CheckOffersNext(db: Db, cfg: Config, clock: Clock, id: Identity, v: Version, ch: Channel)
    requires id.group in db.groups && Unlimited(db.groups[id.group], ch, clock.officeHours) && cfg.maxFloors >= 1
    requires Less(v, ch.target.value.version) && Ready(db, clock.now, id, v, ch)
    ensures var (db', offer) := Serve(db, cfg, clock, id, v);
            && offer == Some(NextVersion(ch, v)) && Holding(db', clock.now, id, NextVersion(ch, v))
            && InGroup(db', id, ch, clock.officeHours)
  {
    var req := CheckRequest(id, v);
    ReadyRegisters(db, clock.now, id, v, ch);
    var Registration(db1, snapshot) := Register(db, clock.now, req).value;
    FirstOffer(ch, v, cfg.maxFloors);
    hide Register, NextVersion, PackagesForUpdate;
    if snapshot.value.status == Some(UpdateGranted) {
      NextVersionAdvances(ch, v);
      CheckServesGranted(db, cfg, clock, req, db1, snapshot.value, ch);
    } else {
      CheckGrants(db, cfg, clock, req, db1, snapshot.value, ch);
    }
    hide Check;
  }

  // ----- who is served -----

  /**
   A check whose caller sees no row: the instance is known, its metadata is as on record, and it has no row for
   this application that is younger than a day. It may have been silent, or be known through another application.
   */
  predicate Forgotten(db: Db, now: int, req: Request) {
    && req.instance in db.instances && FetchRow(db, now, req.instance).None?
    && MergedMetadata(req.metadata, db.instances[req.instance]) == db.instances[req.instance]
  }

  /** The row is idle, or holds a grant beyond `v`. */
  predicate Servable(row: Row, v: Version) {
    row.status.Some? && InProgressStatus(row.status.value) ==>
      row.status == Some(UpdateGranted) && row.lastUpdateVersion.Some? && Less(v, row.lastUpdateVersion.value)
  }

  /**
   Whom a server without limits serves: everybody who is behind the target and whose row is servable, except
   for a known instance with the metadata on record that was silent for a day or has no row here yet.
   */
  lemma {:induction false} ServedIffRemembered(db: Db, cfg: Config, clock: Clock, req: Request, ch: Channel)
    requires DbOk(db) && cfg.maxFloors >= 1
    requires req.group in db.groups && Unlimited(db.groups[req.group], ch, clock.officeHours)
    requires req.version.Some? && Less(req.version.value, ch.target.value.version)
    ensures Check(db, cfg, clock, req).result.Ok? <==>
            && !Forgotten(db, clock.now, req)
            && (req.instance in db.rows ==> Servable(db.rows[req.instance], req.version.value))
  {
    FirstOffer(ch, req.version.value, cfg.maxFloors);
    assert Refusal(db, clock, req.group).None?;
    SnapshotIff(db, clock.now, req);
    var Registration(db1, snapshot) := Register(db, clock.now, req).value;
    assert Refusal(db1, clock, req.group).None?;
    hide Register, PackagesForUpdate, Forgotten, Refusal, DbOk, WellFormed;
  }

  lemma SnapshotIff(db: Db, now: int, req: Request)
    requires DbOk(db) && req.version.Some? && req.group in db.groups
    ensures var r := Register(db, now, req);
            && r.Some? && r.value.db.groups == db.groups
            && (r.value.snapshot.Some? <==> !Forgotten(db, now, req))
            && (r.value.snapshot.Some? ==>
                  if req.instance in db.rows then SameProgress(r.value.snapshot.value, db.rows[req.instance])
                  else r.value.snapshot.value.status == None)
  {
    hide RowOk, MergedMetadata;
  }

  /** Nor does such a check change anything but the check-in of its row. */
  lemma FirstCheckAfterSilence(db: Db, cfg: Config, clock: Clock, req: Request)
    requires Forgotten(db, clock.now, req)
    ensures var out := Check(db, cfg, clock, req);
            && out.result.Err?
            && (forall i | i in db.rows :: i in out.db.rows && SameProgress(db.rows[i], out.db.rows[i]))
            && (forall i | i in out.db.rows && i !in db.rows :: out.db.rows[i].history == [])
  {
    hide Refusal, PackagesForUpdate, MergedMetadata;
  }

  // ----- one round -----

  /** An event that the server acts upon. */
  lemma EventSetsStatus(db: Db, cfg: Config, m: Message, id: Identity, etype: int, result: int, s: Status)
    requires m.wire != RequestLost && TrackResolves(db, id.group)
    requires id.instance in db.instances && id.instance in db.rows
    requires db.rows[id.instance].lastCheck > m.at - VALIDITY && db.rows[id.instance].inProgress
    requires KnownEvent(etype, result) && EventStatus(cfg, etype, result) == Some(s)
    requires result != RESULT_SUCCESS_REBOOT && (cfg.disableUpdatesOnFailedRollout ==> s != Error)
    requires db.rows[id.instance].status != Some(s)
    ensures var db' := Deliver(db, cfg, m, id, etype, result);
            && db'.instances == db.instances
            && db'.rows == db.rows[id.instance := Changed(db.rows[id.instance], SetStatus(s))]
            && id.group in db'.groups && SameButRollout(db.groups[id.group], db'.groups[id.group])
  {
    hide SucceededCount, TotalCount, AttemptedCount, Changed, KnownEvent, EventStatus;
  }

  /** The same over the wire, seen from the client's row. */
  lemma EventTold(db: Db, node: Node, m: Message, id: Identity, etype: int, result: int, s: Status, ch: Channel,
      officeHours: bool)
    requires InGroup(db, id, ch, officeHours) && AllForeign(node.cfg, m.others, id.instance, id.group)
    requires m.wire != RequestLost && id.instance in db.instances && id.instance in db.rows
    requires db.rows[id.instance].lastCheck > m.at - VALIDITY && db.rows[id.instance].inProgress
    requires KnownEvent(etype, result) && EventStatus(node.cfg, etype, result) == Some(s)
    requires result != RESULT_SUCCESS_REBOOT && (node.cfg.disableUpdatesOnFailedRollout ==> s != Error)
    requires db.rows[id.instance].status != Some(s)
    ensures var db' := Tell(db, node, m, id, etype, result);
            && id.instance in db'.instances && id.instance in db'.rows
            && db'.rows[id.instance] == Changed(db.rows[id.instance], SetStatus(s))
            && InGroup(db', id, ch, officeHours) && (Told(db, node, m, id) <==> m.wire == Arrives)
  {
    var db0 := Meanwhile(db, node, m);
    OthersLeave(db, node, m, id, ch, officeHours);
    hide Meanwhile, AllForeign, KnownEvent, EventStatus, Changed;
    EventSetsStatus(db0, node.cfg, m, id, etype, result, s);
    hide Deliver;
  }

  /** An event that is unknown, or known and without consequence, or lost. */
  lemma EventWithoutEffect(db: Db, node: Node, m: Message, id: Identity, etype: int, result: int, ch: Channel,
      officeHours: bool)
    requires InGroup(db, id, ch, officeHours) && AllForeign(node.cfg, m.others, id.instance, id.group)
    requires m.wire == RequestLost || !KnownEvent(etype, result) || EventStatus(node.cfg, etype, result).None?
    requires result != RESULT_SUCCESS_REBOOT
    ensures var db' := Tell(db, node, m, id, etype, result);
            && SameRow(db, db', id.instance) && InGroup(db', id, ch, officeHours)
            && (Told(db, node, m, id) <==> m.wire == Arrives)
  {
    OthersLeave(db, node, m, id, ch, officeHours);
    hide Meanwhile, AllForeign;
  }

  /** The report of a finished download. */
  lemma DownloadReported(db: Db, node: Node, seen: int, m: Message, id: Identity, next: Version, ch: Channel,
      officeHours: bool)
    requires Holding(db, seen, id, next) && InGroup(db, id, ch, officeHours)
    requires AllForeign(node.cfg, m.others, id.instance, id.group) && m.wire != RequestLost && m.at < seen + MEMORY
    ensures var db' := Tell(db, node, m, id, EVENT_UPDATE_DOWNLOAD_FINISHED, RESULT_SUCCESS);
            Fetched(db', seen, id, next) && InGroup(db', id, ch, officeHours)
    ensures Told(db, node, m, id) <==> m.wire == Arrives
  {
    EventTold(db, node, m, id, EVENT_UPDATE_DOWNLOAD_FINISHED, RESULT_SUCCESS, Downloaded, ch, officeHours);
    hide Tell, InGroup, Told;
  }

  /** The row after a reported download of `next`. */
  ghost predicate Fetched(db: Db, seen: int, id: Identity, next: Version) {
    && Busy(db, id) && db.rows[id.instance].inProgress
    && db.rows[id.instance].lastUpdateVersion == Some(next) && db.rows[id.instance].lastCheck >= seen - RECENT
  }

  /** The report of an installation does nothing. */
  lemma InstallReported(db: Db, node: Node, seen: int, m: Message, id: Identity, next: Version, ch: Channel,
      officeHours: bool)
    requires Fetched(db, seen, id, next) && InGroup(db, id, ch, officeHours)
    requires AllForeign(node.cfg, m.others, id.instance, id.group)
    ensures var db' := Tell(db, node, m, id, EVENT_INSTALL_COMPLETE, RESULT_SUCCESS);
            Fetched(db', seen, id, next) && InGroup(db', id, ch, officeHours)
    ensures Told(db, node, m, id) <==> m.wire == Arrives
  {
    EventWithoutEffect(db, node, m, id, EVENT_INSTALL_COMPLETE, RESULT_SUCCESS, ch, officeHours);
    hide Tell, InGroup, Told;
  }

  /** The report of a completed update, for an application other than Flatcar. */
  lemma CompletionReported(db: Db, node: Node, seen: int, m: Message, id: Identity, next: Version, ch: Channel,
      officeHours: bool)
    requires Fetched(db, seen, id, next) && InGroup(db, id, ch, officeHours) && !node.cfg.isFlatcar
    requires AllForeign(node.cfg, m.others, id.instance, id.group) && m.wire != RequestLost && m.at < seen + MEMORY
    ensures var db' := Tell(db, node, m, id, EVENT_UPDATE_COMPLETE, RESULT_SUCCESS);
            InStep(db', seen, id, next) && InGroup(db', id, ch, officeHours)
    ensures Told(db, node, m, id) <==> m.wire == Arrives
  {
    EventTold(db, node, m, id, EVENT_UPDATE_COMPLETE, RESULT_SUCCESS, Complete, ch, officeHours);
    hide Tell, InGroup, Told;
  }

  /** The report of a failure, before or after the download was reported. */
  lemma ErrorReported(db: Db, node: Node, seen: int, m: Message, id: Identity, next: Version, v: Version, ch: Channel,
      officeHours: bool)
    requires (Holding(db, seen, id, next) || Fetched(db, seen, id, next)) && InGroup(db, id, ch, officeHours)
    requires !node.cfg.disableUpdatesOnFailedRollout
    requires AllForeign(node.cfg, m.others, id.instance, id.group) && m.wire != RequestLost && m.at < seen + MEMORY
    ensures var db' := Tell(db, node, m, id, EVENT_UPDATE_COMPLETE, EVENT_RESULT_ERROR);
            ch.target.Some? && Standing(db', seen, id, v, ch) && InGroup(db', id, ch, officeHours)
  {
    EventTold(db, node, m, id, EVENT_UPDATE_COMPLETE, EVENT_RESULT_ERROR, Error, ch, officeHours);
    assert ch.target.Some?;
    hide Tell, InGroup, Told;
  }

  lemma HoldingStands(db: Db, seen: int, id: Identity, v: Version, ch: Channel)
    requires ch.target.Some? && Less(v, ch.target.value.version) && Holding(db, seen, id, NextVersion(ch, v))
    ensures Standing(db, seen, id, v, ch)
  {
  }

  /** A report that is lost. */
  lemma ReportLost(db: Db, node: Node, seen: int, m: Message, id: Identity, next: Version, etype: int, result: int,
      ch: Channel, officeHours: bool)
    requires InGroup(db, id, ch, officeHours) && AllForeign(node.cfg, m.others, id.instance, id.group)
    requires m.wire == RequestLost && result != RESULT_SUCCESS_REBOOT
    ensures var db' := Tell(db, node, m, id, etype, result);
            && (Holding(db, seen, id, next) ==> Holding(db', seen, id, next))
            && (Fetched(db, seen, id, next) ==> Fetched(db', seen, id, next))
            && InGroup(db', id, ch, officeHours) && !Told(db, node, m, id)
  {
    EventWithoutEffect(db, node, m, id, etype, result, ch, officeHours);
    hide Tell, InGroup, Told;
  }

  /** After the check of a round that reached the server: the tables, and what the client knows. */
  lemma RoundStarts(db: Db, node: Node, id: Identity, v: Version, round: Round, ch: Channel) returns (db1: Db)
    requires InGroup(db, id, ch, round.officeHours) && node.cfg.maxFloors >= 1
    requires Less(v, ch.target.value.version) && Ready(db, round.check.at, id, v, ch)
    requires round.check.wire != RequestLost && AllForeign(node.cfg, round.check.others, id.instance, id.group)
    ensures Ask(db, node, round, id, v)
            == (db1, if round.check.wire == Arrives then Offer(NextVersion(ch, v)) else NoAnswer)
    ensures Holding(db1, round.check.at, id, NextVersion(ch, v)) && InGroup(db1, id, ch, round.officeHours)
  {
    var db0 := Meanwhile(db, node, round.check);
    OthersLeave(db, node, round.check, id, ch, round.officeHours);
    assert Ready(db0, round.check.at, id, v, ch);
    hide NextVersion, Serve, Meanwhile, AllForeign;
    CheckOffersNext(db0, node.cfg, Clock(round.check.at, round.officeHours), id, v, ch);
    db1 := Ask(db, node, round, id, v).0;
  }

  /** A good round takes the client to the next version, and the server knows. */
  lemma GoodRound(db: Db, node: Node, id: Identity, v: Version, round: Round, ch: Channel)
    requires InGroup(db, id, ch, round.officeHours) && node.cfg.maxFloors >= 1 && !node.cfg.isFlatcar
    requires Less(v, ch.target.value.version) && Ready(db, round.check.at, id, v, ch)
    requires Good(round) && Timely(round) && OthersOnly(node.cfg, round, id)
    ensures var out := Attempt(db, node, id, v, round);
            && out.result == Updated(NextVersion(ch, v)) && out.version == NextVersion(ch, v)
            && InStep(out.db, round.check.at, id, out.version) && InGroup(out.db, id, ch, round.officeHours)
  {
    assert ch.target.Some?;
    hide NextVersion, Ask, Tell, Told, InGroup, Ready, AllForeign;
    var next := NextVersion(ch, v);
    var db1 := RoundStarts(db, node, id, v, round, ch);
    hide Holding, InStep;
    GoodEnd(db1, node, id, next, round, ch);
  }

  /** The rest of a good round. */
  lemma GoodEnd(db1: Db, node: Node, id: Identity, next: Version, round: Round, ch: Channel)
    requires Holding(db1, round.check.at, id, next) && InGroup(db1, id, ch, round.officeHours)
    requires !node.cfg.isFlatcar && Good(round) && Timely(round) && OthersOnly(node.cfg, round, id)
    ensures var db2 := Tell(db1, node, round.downloaded, id, EVENT_UPDATE_DOWNLOAD_FINISHED, RESULT_SUCCESS);
            var db3 := Tell(db2, node, round.installed, id, EVENT_INSTALL_COMPLETE, RESULT_SUCCESS);
            var db4 := Tell(db3, node, round.completed, id, EVENT_UPDATE_COMPLETE, RESULT_SUCCESS);
            && Told(db1, node, round.downloaded, id) && Told(db2, node, round.installed, id)
            && Told(db3, node, round.completed, id)
            && InStep(db4, round.check.at, id, next) && InGroup(db4, id, ch, round.officeHours)
  {
    hide Tell, Told, InGroup, Holding, Fetched, InStep, AllForeign;
    DownloadReported(db1, node, round.check.at, round.downloaded, id, next, ch, round.officeHours);
    var db2 := Tell(db1, node, round.downloaded, id, EVENT_UPDATE_DOWNLOAD_FINISHED, RESULT_SUCCESS);
    InstallReported(db2, node, round.check.at, round.installed, id, next, ch, round.officeHours);
    var db3 := Tell(db2, node, round.installed, id, EVENT_INSTALL_COMPLETE, RESULT_SUCCESS);
    CompletionReported(db3, node, round.check.at, round.completed, id, next, ch, round.officeHours);
  }

  /** A round that fails and does not wedge leaves the client where it is, and the server ready to serve it again. */
  lemma FailedRound(db: Db, node: Node, seen: int, id: Identity, v: Version, round: Round, ch: Channel)
    requires InGroup(db, id, ch, round.officeHours) && node.cfg.maxFloors >= 1 && !node.cfg.isFlatcar
    requires Tolerated(node.cfg, round) && OthersOnly(node.cfg, round, id)
    requires Less(v, ch.target.value.version) && Standing(db, seen, id, v, ch)
    requires round.check.wire != RequestLost ==> round.check.at < seen + MEMORY
    requires !Good(round) && !Wedges(round) && Timely(round)
    ensures var out := Attempt(db, node, id, v, round);
            && out.result == Failed && out.version == v && Standing(out.db, Seen(seen, round), id, v, ch)
            && InGroup(out.db, id, ch, round.officeHours)
  {
    assert ch.target.Some?;
    if round.check.wire == RequestLost {
      OthersLeave(db, node, round.check, id, ch, round.officeHours);
      hide Meanwhile, InGroup, AllForeign;
    } else {
      StandingIsReady(db, seen, round.check.at, id, v, ch);
      hide NextVersion, Tell, Told, InGroup, Ready, Standing, Ask, AllForeign;
      var db1 := RoundStarts(db, node, id, v, round, ch);
      HoldingStands(db1, round.check.at, id, v, ch);
      if round.check.wire == Arrives {
        hide Holding;
        if round.fetched && round.downloaded.wire != RequestLost {
          FailsLate(db1, node, id, v, round, ch);
        } else {
          FailsEarly(db1, node, id, v, round, ch);
        }
      }
    }
  }

  /** The rest of a round that fails before the server hears of a download. */
  lemma FailsEarly(db1: Db, node: Node, id: Identity, v: Version, round: Round, ch: Channel)
    requires InGroup(db1, id, ch, round.officeHours) && Less(v, ch.target.value.version)
    requires Holding(db1, round.check.at, id, NextVersion(ch, v))
    requires Tolerated(node.cfg, round) && Timely(round) && OthersOnly(node.cfg, round, id)
    requires round.check.wire == Arrives && (!round.fetched || round.downloaded.wire == RequestLost)
    ensures var report := if round.fetched then EVENT_UPDATE_DOWNLOAD_FINISHED else EVENT_UPDATE_COMPLETE;
            var db2 := Tell(db1, node, round.downloaded, id, report,
                            if round.fetched then RESULT_SUCCESS else EVENT_RESULT_ERROR);
            && Standing(db2, round.check.at, id, v, ch) && InGroup(db2, id, ch, round.officeHours)
            && (round.fetched ==> !Told(db1, node, round.downloaded, id))
  {
    assert ch.target.Some?;
    hide NextVersion, Tell, Told, InGroup, Standing, AllForeign, Holding;
    var next := NextVersion(ch, v);
    if round.downloaded.wire == RequestLost {
      var report := if round.fetched then EVENT_UPDATE_DOWNLOAD_FINISHED else EVENT_UPDATE_COMPLETE;
      var result := if round.fetched then RESULT_SUCCESS else EVENT_RESULT_ERROR;
      ReportLost(db1, node, round.check.at, round.downloaded, id, next, report, result, ch, round.officeHours);
      HoldingStands(Tell(db1, node, round.downloaded, id, report, result), round.check.at, id, v, ch);
    } else {
      ErrorReported(db1, node, round.check.at, round.downloaded, id, next, v, ch, round.officeHours);
    }
  }

  /** The rest of a round that fails after the server heard of the download. */
  lemma FailsLate(db1: Db, node: Node, id: Identity, v: Version, round: Round, ch: Channel)
    requires InGroup(db1, id, ch, round.officeHours) && Less(v, ch.target.value.version)
    requires Holding(db1, round.check.at, id, NextVersion(ch, v)) && !node.cfg.isFlatcar
    requires Tolerated(node.cfg, round) && Timely(round) && OthersOnly(node.cfg, round, id)
    requires !Good(round) && !Wedges(round)
    requires round.check.wire == Arrives && round.fetched && round.downloaded.wire != RequestLost
    ensures var db2 := Tell(db1, node, round.downloaded, id, EVENT_UPDATE_DOWNLOAD_FINISHED, RESULT_SUCCESS);
            var failed := Tell(db2, node, round.installed, id, EVENT_UPDATE_COMPLETE, EVENT_RESULT_ERROR);
            var db3 := Tell(db2, node, round.installed, id, EVENT_INSTALL_COMPLETE, RESULT_SUCCESS);
            var db4 := Tell(db3, node, round.completed, id, EVENT_UPDATE_COMPLETE, RESULT_SUCCESS);
            var end := if round.applied then db4 else failed;
            && Told(db1, node, round.downloaded, id)
            && (round.applied ==> Told(db2, node, round.installed, id) && !Told(db3, node, round.completed, id))
            && Standing(end, round.check.at, id, v, ch) && InGroup(end, id, ch, round.officeHours)
  {
    assert ch.target.Some?;
    hide NextVersion, Tell, Told, InGroup, Standing, AllForeign, Holding, Fetched, InStep;
    var next := NextVersion(ch, v);
    DownloadReported(db1, node, round.check.at, round.downloaded, id, next, ch, round.officeHours);
    var db2 := Tell(db1, node, round.downloaded, id, EVENT_UPDATE_DOWNLOAD_FINISHED, RESULT_SUCCESS);
    if round.applied {
      InstallReported(db2, node, round.check.at, round.installed, id, next, ch, round.officeHours);
      var db3 := Tell(db2, node, round.installed, id, EVENT_INSTALL_COMPLETE, RESULT_SUCCESS);
      CompletionReported(db3, node, round.check.at, round.completed, id, next, ch, round.officeHours);
      var db4 := Tell(db3, node, round.completed, id, EVENT_UPDATE_COMPLETE, RESULT_SUCCESS);
      CompleteStands(db4, round.check.at, id, next, v, ch);
    } else {
      ErrorReported(db2, node, round.check.at, round.installed, id, next, v, ch, round.officeHours);
    }
  }

  lemma CompleteStands(db: Db, seen: int, id: Identity, next: Version, v: Version, ch: Channel)
    requires ch.target.Some? && InStep(db, seen, id, next)
    ensures Standing(db, seen, id, v, ch)
  {
  }

  /** A wedging round leaves the client where it is and the server waiting. */
  lemma WedgingRound(db: Db, node: Node, id: Identity, v: Version, round: Round, ch: Channel)
    requires InGroup(db, id, ch, round.officeHours) && node.cfg.maxFloors >= 1
    requires Less(v, ch.target.value.version) && Ready(db, round.check.at, id, v, ch)
    requires Wedges(round) && Timely(round) && OthersOnly(node.cfg, round, id)
    ensures var out := Attempt(db, node, id, v, round);
            && out.result == Failed && out.version == v && Busy(out.db, id)
            && InGroup(out.db, id, ch, round.officeHours)
  {
    assert ch.target.Some?;
    hide NextVersion, Ask, Tell, Told, InGroup, Ready, AllForeign, Busy;
    var db1 := RoundStarts(db, node, id, v, round, ch);
    WedgingEnd(db1, node, id, NextVersion(ch, v), round, ch);
    hide Holding;
  }

  /** The rest of a wedging round: whatever the client sends after the download report is lost or says nothing. */
  lemma WedgingEnd(db1: Db, node: Node, id: Identity, next: Version, round: Round, ch: Channel)
    requires Holding(db1, round.check.at, id, next) && InGroup(db1, id, ch, round.officeHours)
    requires Wedges(round) && Timely(round) && OthersOnly(node.cfg, round, id)
    ensures var db2 := Tell(db1, node, round.downloaded, id, EVENT_UPDATE_DOWNLOAD_FINISHED, RESULT_SUCCESS);
            var failed := Tell(db2, node, round.installed, id, EVENT_UPDATE_COMPLETE, EVENT_RESULT_ERROR);
            var db3 := Tell(db2, node, round.installed, id, EVENT_INSTALL_COMPLETE, RESULT_SUCCESS);
            var db4 := Tell(db3, node, round.completed, id, EVENT_UPDATE_COMPLETE, RESULT_SUCCESS);
            var end := if round.downloaded.wire == ReplyLost then db2
                       else if !round.applied then failed
                       else if round.installed.wire != Arrives then db3 else db4;
            && (Told(db1, node, round.downloaded, id) <==> round.downloaded.wire == Arrives)
            && (Told(db2, node, round.installed, id) <==> round.installed.wire == Arrives)
            && (end == db4 && round.applied && round.installed.wire == Arrives && round.downloaded.wire == Arrives ==>
                  !Told(db3, node, round.completed, id))
            && Busy(end, id) && InGroup(end, id, ch, round.officeHours)
  {
    hide Tell, Told, InGroup, AllForeign, Holding;
    var seen := round.check.at;
    DownloadReported(db1, node, seen, round.downloaded, id, next, ch, round.officeHours);
    var db2 := Tell(db1, node, round.downloaded, id, EVENT_UPDATE_DOWNLOAD_FINISHED, RESULT_SUCCESS);
    InstallReported(db2, node, seen, round.installed, id, next, ch, round.officeHours);
    var db3 := Tell(db2, node, round.installed, id, EVENT_INSTALL_COMPLETE, RESULT_SUCCESS);
    if round.installed.wire == RequestLost {
      ReportLost(db2, node, seen, round.installed, id, next, EVENT_UPDATE_COMPLETE, EVENT_RESULT_ERROR, ch,
                 round.officeHours);
    }
    if round.completed.wire == RequestLost {
      ReportLost(db3, node, seen, round.completed, id, next, EVENT_UPDATE_COMPLETE, RESULT_SUCCESS, ch,
                 round.officeHours);
    }
  }

  /** Once the server waits to hear more of a download, no check of the client is ever answered with an update. */
  lemma BusyStays(db: Db, node: Node, id: Identity, v: Version, round: Round)
    requires Busy(db, id) && AllForeign(node.cfg, round.check.others, id.instance, id.group)
    ensures var out := Attempt(db, node, id, v, round);
            !out.result.Updated? && out.version == v && Busy(out.db, id)
  {
    ForeignRun(db, node, round.check.others, id.instance, id.group);
    var db0 := Meanwhile(db, node, round.check);
    assert Busy(db0, id);
    if round.check.wire != RequestLost && TrackResolves(db0, id.group) {
      BusyIsRefused(db0, node.cfg, Clock(round.check.at, round.officeHours), CheckRequest(id, v));
    }
    hide Check, Tell, Meanwhile, AllForeign;
  }

  lemma BusyIsRefused(db: Db, cfg: Config, clock: Clock, req: Request)
    requires req.version.Some? && req.group in db.groups && req.instance in db.instances && req.instance in db.rows
    requires db.rows[req.instance].status == Some(Downloaded)
    ensures var out := Check(db, cfg, clock, req);
            && out.result.Err? && req.instance in out.db.instances && req.instance in out.db.rows
            && out.db.rows[req.instance].status == Some(Downloaded)
    ensures db.rows[req.instance].lastCheck > clock.now - VALIDITY ==>
              Check(db, cfg, clock, req).result == Err(UpdateInProgressOnInstance)
  {
    hide Refusal, PackagesForUpdate, MergedMetadata;
  }

  /** A client that is not behind the target is offered nothing. */
  lemma NothingLeft(db: Db, node: Node, seen: int, id: Identity, v: Version, round: Round, ch: Channel)
    requires InGroup(db, id, ch, round.officeHours) && AllForeign(node.cfg, round.check.others, id.instance, id.group)
    requires !Less(v, ch.target.value.version) && Standing(db, seen, id, v, ch)
    requires round.check.wire != RequestLost ==> round.check.at < seen + MEMORY
    ensures var out := Attempt(db, node, id, v, round);
            && out.result == (if round.check.wire == Arrives then NoUpdate else Failed) && out.version == v
            && Standing(out.db, Seen(seen, round), id, v, ch) && InGroup(out.db, id, ch, round.officeHours)
            && (round.check.wire != RequestLost ==> Agreed(out.db, id, v))
  {
    OthersLeave(db, node, round.check, id, ch, round.officeHours);
    var db0 := Meanwhile(db, node, round.check);
    assert ch.target.Some? && Standing(db0, seen, id, v, ch);
    hide Meanwhile, AllForeign;
    if round.check.wire != RequestLost {
      StandingIsReady(db0, seen, round.check.at, id, v, ch);
      NothingServed(db0, node.cfg, Clock(round.check.at, round.officeHours), id, v, ch);
      hide Serve;
    }
    hide Standing;
  }

  lemma NothingServed(db: Db, cfg: Config, clock: Clock, id: Identity, v: Version, ch: Channel)
    requires InGroup(db, id, ch, clock.officeHours) && !Less(v, ch.target.value.version)
    requires Ready(db, clock.now, id, v, ch)
    ensures var (db', offer) := Serve(db, cfg, clock, id, v);
            && offer.None? && Standing(db', clock.now, id, v, ch) && db'.groups == db.groups && Agreed(db', id, v)
  {
    ReadyRegisters(db, clock.now, id, v, ch);
    hide Register, NextVersion, Ready, Standing, PackagesForUpdate, GrantOrRefuse;
    var Registration(db1, snapshot) := Register(db, clock.now, CheckRequest(id, v)).value;
    IdleStands(db1, clock.now, id, v, ch, snapshot.value);
  }

  lemma IdleStands(db: Db, seen: int, id: Identity, v: Version, ch: Channel, row: Row)
    requires ch.target.Some? && !Less(v, ch.target.value.version) && CanServe(row, v, ch)
    requires id.instance in db.rows && id.instance in db.instances && db.rows[id.instance].lastCheck >= seen - RECENT
    requires SameProgress(row, db.rows[id.instance])
    ensures Standing(db, seen, id, v, ch) && (row.status.Some? ==> !InProgressStatus(row.status.value))
  {
  }

  // ----- the walk -----

  /** When the last check that reached the server was made. */
  function Seen(seen: int, round: Round): int {
    if round.check.wire == RequestLost then seen else round.check.at
  }

  lemma StandingIsReady(db: Db, seen: int, now: int, id: Identity, v: Version, ch: Channel)
    requires ch.target.Some? && Standing(db, seen, id, v, ch) && now < seen + MEMORY
    ensures Ready(db, now, id, v, ch)
  {
  }

  lemma InStepStands(db: Db, seen: int, id: Identity, v: Version, ch: Channel)
    requires ch.target.Some? && InStep(db, seen, id, v)
    ensures Standing(db, seen, id, v, ch)
  {
  }

  /** Rounds one after another; `visited` collects the versions the client reaches. */
  datatype Journey = Journey(db: Db, version: Version, visited: seq<Version>)

  function Play(db: Db, node: Node, id: Identity, v: Version, rounds: seq<Round>): Journey
    decreases |rounds|
  {
    if rounds == [] then Journey(db, v, [])
    else
      var first := Attempt(db, node, id, v, rounds[0]);
      var rest := Play(first.db, node, id, first.version, rounds[1..]);
      Journey(rest.db, rest.version, (if first.result.Updated? then [first.result.version] else []) + rest.visited)
  }

  /** Rounds in office hours, each starting while the check-in of the previous one is still on record. */
  predicate Schedule(cfg: Config, id: Identity, seen: int, rounds: seq<Round>)
    decreases |rounds|
  {
    rounds == [] ||
    (&& Timely(rounds[0]) && rounds[0].officeHours && Tolerated(cfg, rounds[0]) && OthersOnly(cfg, rounds[0], id)
     && (rounds[0].check.wire != RequestLost ==> rounds[0].check.at < seen + MEMORY)
     && Schedule(cfg, id, Seen(seen, rounds[0]), rounds[1..]))
  }

  function LastSeen(seen: int, rounds: seq<Round>): int
    decreases |rounds|
  {
    if rounds == [] then seen else LastSeen(Seen(seen, rounds[0]), rounds[1..])
  }

  /** The good rounds before the first one that wedges. */
  function Progress(rounds: seq<Round>): nat
    decreases |rounds|
  {
    if rounds == [] || Wedges(rounds[0]) then 0
    else (if Good(rounds[0]) then 1 else 0) + Progress(rounds[1..])
  }

  /** The last round is good and none wedges. */
  predicate EndsWell(rounds: seq<Round>)
    decreases |rounds|
  {
    rounds != [] && !Wedges(rounds[0]) && if |rounds| == 1 then Good(rounds[0]) else EndsWell(rounds[1..])
  }

  /** Server and client agree on the client's version. */
  predicate Agreed(db: Db, id: Identity, v: Version) {
    id.instance in db.rows && db.rows[id.instance].version == v
  }

  function Min(a: nat, b: nat): nat {
    if a < b then a else b
  }

  /** A client whose server waits stays where it is. */
  lemma {:induction false} BusyGetsNowhere(db: Db, node: Node, id: Identity, v: Version, rounds: seq<Round>)
    requires Busy(db, id) && forall r | r in rounds :: OthersOnly(node.cfg, r, id)
    ensures Play(db, node, id, v, rounds).visited == [] && Play(db, node, id, v, rounds).version == v
    decreases |rounds|
  {
    hide Attempt, Busy, AllForeign;
    if rounds != [] {
      assert rounds[0] in rounds && forall r | r in rounds[1..] :: r in rounds;
      BusyStays(db, node, id, v, rounds[0]);
      BusyGetsNowhere(Attempt(db, node, id, v, rounds[0]).db, node, id, v, rounds[1..]);
    }
  }

  /** What the rounds achieved. */
  ghost predicate Walked(end: Journey, id: Identity, v: Version, seen: int, rounds: seq<Round>, ch: Channel)
    requires ch.target.Some?
  {
    && end.visited == Walk(ch, v)[..Min(Progress(rounds), |Walk(ch, v)|)]
    && end.version == (if end.visited == [] then v else end.visited[|end.visited| - 1])
    && (EndsWell(rounds) ==> Agreed(end.db, id, end.version))
    && (Progress(rounds) >= |Walk(ch, v)| ==>
          && InGroup(end.db, id, ch, true)
          && Standing(end.db, LastSeen(seen, rounds), id, end.version, ch))
  }

  /**
   The floor walk of the two parties. Whatever the cap on floors per response, and whatever rounds fail in
   between, the client goes through the versions of `Walk` in order, one per good round, until it is at the end
   or a round wedges. After each good round the server's row says the client's version.
   */
  lemma {:induction false} ClientWalks(db: Db, node: Node, seen: int, id: Identity, v: Version, rounds: seq<Round>,
      ch: Channel)
    requires InGroup(db, id, ch, true)
    requires node.cfg.maxFloors >= 1 && !node.cfg.isFlatcar
    requires Schedule(node.cfg, id, seen, rounds) && Standing(db, seen, id, v, ch)
    ensures Walked(Play(db, node, id, v, rounds), id, v, seen, rounds, ch)
    decreases |rounds|
  {
    if rounds == [] {
      hide Walk, Standing, InGroup;
    } else {
      assert ch.target.Some?;
      AnyRound(db, node, seen, id, v, rounds[0], ch);
      var first, end := Attempt(db, node, id, v, rounds[0]), Play(db, node, id, v, rounds);
      var rest := Play(first.db, node, id, first.version, rounds[1..]);
      assert end == rest.(visited := (if first.result.Updated? then [first.version] else []) + rest.visited);
      assert Schedule(node.cfg, id, Seen(seen, rounds[0]), rounds[1..]);
      hide Attempt, Walk, Standing, NextVersion, Good, Wedges, Timely, Tolerated, InGroup, Busy, Walked, Play,
        Schedule, Agreed, OthersOnly;
      if !Less(v, ch.target.value.version) {
        ClientWalks(first.db, node, Seen(seen, rounds[0]), id, v, rounds[1..], ch);
        assert end == rest;
        WalkedLater(end, id, v, seen, rounds, ch);
      } else if Wedges(rounds[0]) {
        AllOthersOnly(node.cfg, id, Seen(seen, rounds[0]), rounds[1..]);
        BusyGetsNowhere(first.db, node, id, v, rounds[1..]);
        NothingWalked(end, id, v, seen, rounds, ch);
      } else {
        ClientWalks(first.db, node, Seen(seen, rounds[0]), id, first.version, rounds[1..], ch);
        AfterFirst(first, rest, end, id, v, seen, rounds, ch);
      }
    }
  }

  lemma AfterFirst(first: TryOutcome, rest: Journey, end: Journey, id: Identity, v: Version, seen: int,
      rounds: seq<Round>, ch: Channel)
    requires ch.target.Some? && Less(v, ch.target.value.version) && rounds != [] && !Wedges(rounds[0])
    requires if Good(rounds[0]) then first.result == Updated(first.version) && first.version == NextVersion(ch, v)
             else !first.result.Updated? && first.version == v
    requires end == rest.(visited := (if first.result.Updated? then [first.version] else []) + rest.visited)
    requires Walked(rest, id, first.version, Seen(seen, rounds[0]), rounds[1..], ch)
    requires |rounds| == 1 && Good(rounds[0]) ==> Agreed(end.db, id, end.version)
    ensures Walked(end, id, v, seen, rounds, ch)
  {
    hide Walked, NextVersion, Good, Wedges, Seen, Agreed;
    if Good(rounds[0]) {
      WalkedOn(end, rest, id, v, seen, rounds, ch);
    } else {
      assert end == rest;
      WalkedLater(end, id, v, seen, rounds, ch);
    }
  }

  lemma {:induction false} AllOthersOnly(cfg: Config, id: Identity, seen: int, rounds: seq<Round>)
    requires Schedule(cfg, id, seen, rounds)
    ensures forall r | r in rounds :: OthersOnly(cfg, r, id)
    decreases |rounds|
  {
    hide OthersOnly, Timely, Tolerated;
    if rounds != [] {
      AllOthersOnly(cfg, id, Seen(seen, rounds[0]), rounds[1..]);
      assert forall r | r in rounds :: r == rounds[0] || r in rounds[1..];
    }
  }

  lemma NothingWalked(end: Journey, id: Identity, v: Version, seen: int, rounds: seq<Round>, ch: Channel)
    requires ch.target.Some? && Less(v, ch.target.value.version) && rounds != [] && Wedges(rounds[0])
    requires end.visited == [] && end.version == v
    ensures Walked(end, id, v, seen, rounds, ch)
  {
    hide Walk, Wedges, Standing, InGroup;
  }

  /** The quantities of a schedule, from its first round on. */
  lemma FirstRoundCounts(seen: int, rounds: seq<Round>)
    requires rounds != [] && !Wedges(rounds[0])
    ensures LastSeen(seen, rounds) == LastSeen(Seen(seen, rounds[0]), rounds[1..])
    ensures Progress(rounds) == (if Good(rounds[0]) then 1 else 0) + Progress(rounds[1..])
    ensures EndsWell(rounds) ==> (|rounds| == 1 && Good(rounds[0])) || EndsWell(rounds[1..])
  {
    hide Good, Wedges, Seen;
  }

  /** The first round took no step: it failed, or the client was at the end. */
  lemma {:induction false} WalkedLater(end: Journey, id: Identity, v: Version, seen: int, rounds: seq<Round>,
      ch: Channel)
    requires ch.target.Some? && rounds != []
    requires if Less(v, ch.target.value.version) then !Good(rounds[0]) && !Wedges(rounds[0]) else true
    requires Walked(end, id, v, Seen(seen, rounds[0]), rounds[1..], ch)
    requires |rounds| == 1 && Good(rounds[0]) ==> Agreed(end.db, id, end.version)
    ensures Walked(end, id, v, seen, rounds, ch)
  {
    if !Wedges(rounds[0]) {
      FirstRoundCounts(seen, rounds);
    }
    hide Walk, Good, Wedges, Standing, InGroup, Progress, LastSeen, Seen, EndsWell, Agreed;
  }

  /** What the first round achieved, put before what the others did. */
  lemma {:induction false} WalkedOn(end: Journey, rest: Journey, id: Identity, v: Version, seen: int,
      rounds: seq<Round>, ch: Channel)
    requires ch.target.Some? && rounds != [] && Less(v, ch.target.value.version)
    requires Good(rounds[0]) && !Wedges(rounds[0])
    requires Walked(rest, id, NextVersion(ch, v), Seen(seen, rounds[0]), rounds[1..], ch)
    requires end == rest.(visited := [NextVersion(ch, v)] + rest.visited)
    requires |rounds| == 1 ==> Agreed(end.db, id, end.version)
    ensures Walked(end, id, v, seen, rounds, ch)
  {
    FirstRoundCounts(seen, rounds);
    WalkStep(ch, v);
    hide Walk, NextVersion, Good, Wedges, Standing, InGroup, Progress, LastSeen, Seen, EndsWell, Agreed;
    var next, n := NextVersion(ch, v), Progress(rounds[1..]);
    var path := Walk(ch, next);
    assert |Walk(ch, v)| == 1 + |path|;
    assert end.visited == Walk(ch, v)[..Min(1 + n, 1 + |path|)] by {
      assert rest.visited == path[..Min(n, |path|)];
    }
    assert end.visited[|end.visited| - 1] == if rest.visited == [] then next else rest.visited[|rest.visited| - 1];
  }

  /** What one round of the schedule achieves. */
  lemma AnyRound(db: Db, node: Node, seen: int, id: Identity, v: Version, round: Round, ch: Channel)
    requires InGroup(db, id, ch, true) && round.officeHours
    requires node.cfg.maxFloors >= 1 && !node.cfg.isFlatcar && Standing(db, seen, id, v, ch)
    requires Timely(round) && Tolerated(node.cfg, round) && OthersOnly(node.cfg, round, id)
    requires round.check.wire != RequestLost ==> round.check.at < seen + MEMORY
    ensures var out, behind := Attempt(db, node, id, v, round), Less(v, ch.target.value.version);
            && (if behind && Good(round) then out.result == Updated(out.version) && out.version == NextVersion(ch, v)
                else !out.result.Updated? && out.version == v)
            && (Good(round) ==> Agreed(out.db, id, out.version))
            && (if behind && Wedges(round) then Busy(out.db, id) && !Good(round)
                else
                  && Standing(out.db, Seen(seen, round), id, out.version, ch)
                  && InGroup(out.db, id, ch, true))
  {
    hide Attempt, Standing, NextVersion, Tolerated, Busy;
    if !Less(v, ch.target.value.version) {
      NothingLeft(db, node, seen, id, v, round, ch);
    } else if Wedges(round) {
      StandingIsReady(db, seen, round.check.at, id, v, ch);
      WedgingRound(db, node, id, v, round, ch);
    } else if Good(round) {
      GoodStep(db, node, seen, id, v, round, ch);
    } else {
      FailedRound(db, node, seen, id, v, round, ch);
    }
  }

  /** A good round, seen from the schedule. */
  lemma GoodStep(db: Db, node: Node, seen: int, id: Identity, v: Version, round: Round, ch: Channel)
    requires InGroup(db, id, ch, true) && round.officeHours
    requires node.cfg.maxFloors >= 1 && !node.cfg.isFlatcar && Less(v, ch.target.value.version)
    requires Standing(db, seen, id, v, ch) && Good(round) && Timely(round) && round.check.at < seen + MEMORY
    requires OthersOnly(node.cfg, round, id)
    ensures var out := Attempt(db, node, id, v, round);
            && out.result == Updated(NextVersion(ch, v)) && out.version == NextVersion(ch, v)
            && Standing(out.db, Seen(seen, round), id, out.version, ch) && Agreed(out.db, id, out.version)
            && InGroup(out.db, id, ch, true)
  {
    StandingIsReady(db, seen, round.check.at, id, v, ch);
    GoodRound(db, node, id, v, round, ch);
    hide Attempt, Standing, NextVersion;
    var out := Attempt(db, node, id, v, round);
    InStepStands(out.db, round.check.at, id, out.version, ch);
  }

  /**
   Visiting every floor: after as many good rounds as the walk has stops, whatever rounds failed in between, the
   client is offered nothing more. It has gone through exactly the floors between its version and the target, in
   ascending order, and is at the target, if and only if the two version orders agree on the way ahead.
   */
  lemma {:induction false} EveryFloorVisitedIff(db: Db, node: Node, seen: int, id: Identity, v: Version,
      rounds: seq<Round>, last: Round, ch: Channel)
    requires InGroup(db, id, ch, true)
    requires node.cfg.maxFloors >= 1 && !node.cfg.isFlatcar && Less(v, ch.target.value.version)
    requires Schedule(node.cfg, id, seen, rounds) && Standing(db, seen, id, v, ch) && Progress(rounds) >= |Walk(ch, v)|
    requires last.check.wire == Arrives && last.officeHours && last.check.at < LastSeen(seen, rounds) + MEMORY
    requires AllForeign(node.cfg, last.check.others, id.instance, id.group)
    ensures var end := Play(db, node, id, v, rounds);
            && (end.visited == RequiredStops(ch, v) <==> OrdersAgree(ch, v))
            && (OrdersAgree(ch, v) ==> end.version == ch.target.value.version)
            && Attempt(end.db, node, id, end.version, last).result == NoUpdate
            && (forall i, j | 0 <= i < j < |end.visited| :: Less(end.visited[i], end.visited[j]))
  {
    hide Attempt, Play, Walk, OrdersAgree, Schedule, Progress, LastSeen, Standing, AllForeign;
    ClientWalks(db, node, seen, id, v, rounds, ch);
    WalkVisitsEveryFloorIff(ch, v);
    WalkAscends(ch, v);
    WalkEndsDone(ch, v);
    var end := Play(db, node, id, v, rounds);
    assert end.visited == Walk(ch, v);
    NothingLeft(end.db, node, LastSeen(seen, rounds), id, end.version, last, ch);
  }

  lemma {:induction false} WalkEndsDone(ch: Channel, v: Version)
    requires ch.target.Some? && Less(v, ch.target.value.version)
    ensures !Less(Walk(ch, v)[|Walk(ch, v)| - 1], ch.target.value.version)
    decreases |InRangeFloors(ch.floors, v, ch.target.value.version)|
  {
    var t := ch.target.value.version;
    var required := InRangeFloors(ch.floors, v, t);
    if required != [] {
      var f := required[0].version;
      assert required[0] in required;
      InRangeShrinks(ch.floors, v, f, t);
      if Less(f, t) {
        WalkEndsDone(ch, f);
        WalkStep(ch, v);
      }
    }
  }

  /**
   For the Flatcar application the plain completion event has no consequence: after one good round the
   server's row is still in the downloaded state, and the next check is refused as busy.
   */
  lemma FlatcarNeedsReboot(db: Db, node: Node, id: Identity, v: Version, round: Round, ch: Channel, next: Clock)
    requires InGroup(db, id, ch, round.officeHours) && node.cfg.maxFloors >= 1 && node.cfg.isFlatcar
    requires Less(v, ch.target.value.version) && Ready(db, round.check.at, id, v, ch)
    requires Good(round) && Timely(round) && OthersOnly(node.cfg, round, id) && next.now < round.check.at + MEMORY
    ensures var out := Attempt(db, node, id, v, round);
            && out.result == Updated(NextVersion(ch, v)) && Busy(out.db, id)
            && Check(out.db, node.cfg, next, CheckRequest(id, out.version)).result == Err(UpdateInProgressOnInstance)
  {
    assert ch.target.Some?;
    hide NextVersion, Ask, Tell, Told, Ready, Check, InGroup, AllForeign, Holding;
    var seen := round.check.at;
    var db1 := RoundStarts(db, node, id, v, round, ch);
    var next' := NextVersion(ch, v);
    DownloadReported(db1, node, seen, round.downloaded, id, next', ch, round.officeHours);
    var db2 := Tell(db1, node, round.downloaded, id, EVENT_UPDATE_DOWNLOAD_FINISHED, RESULT_SUCCESS);
    InstallReported(db2, node, seen, round.installed, id, next', ch, round.officeHours);
    var db3 := Tell(db2, node, round.installed, id, EVENT_INSTALL_COMPLETE, RESULT_SUCCESS);
    EventWithoutEffect(db3, node, round.completed, id, EVENT_UPDATE_COMPLETE, RESULT_SUCCESS, ch, round.officeHours);
    var db4 := Tell(db3, node, round.completed, id, EVENT_UPDATE_COMPLETE, RESULT_SUCCESS);
    GroupIsThere(db4, id, ch, round.officeHours);
    BusyIsRefused(db4, node.cfg, next, CheckRequest(id, next'));
  }

  lemma GroupIsThere(db: Db, id: Identity, ch: Channel, officeHours: bool)
    requires InGroup(db, id, ch, officeHours)
    ensures id.group in db.groups
  {
  }
}
