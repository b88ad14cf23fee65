/** The secure boot policy profile from the log of the current boot: replaying the log with the current signature
    databases and with each pending update applied, and generating a profile from there. */
module SecureBootPolicy {
  import opened Digests
  import opened Authenticode
  import opened PcrProfile
  import opened ProfileArena
  import opened LoadEvents
  import opened SignatureDb
  import opened SecureBoot
  import opened SecureBootGenerator

  const GLOBAL_VARIABLE_GUID: Bytes :=
    [0x61, 0xdf, 0xe4, 0x8b, 0xca, 0x93, 0xd2, 0x11, 0xaa, 0x0d, 0x00, 0xe0, 0x98, 0x03, 0x2b, 0x8c]
  const IMAGE_SECURITY_GUID: Bytes :=
    [0xcb, 0xb2, 0x19, 0xd7, 0x3a, 0x3d, 0x96, 0x45, 0xa3, 0xbc, 0xda, 0xd0, 0x0e, 0x67, 0x65, 0x6f]

  // ------------------------------------------------------------- the databases

  /** A signature database as it is found in the file system. */
  datatype VarFile = Missing | Unreadable | Contents(bytes: Bytes)

  datatype DbVars = DbVars(kek: VarFile, db: VarFile, dbx: VarFile)

  /** A pending update; without content it cannot be opened. */
  datatype Update = Update(db: string, content: Option<Bytes>)

  /** The contents without the attributes. */
  function Current(v: VarFile): Option<Bytes> {
    match v
    case Missing => Some([])
    case Unreadable => None
    case Contents(bytes) => if bytes == [] then Some([]) else if |bytes| < 4 then None else Some(bytes[4..])
  }

  /** The database after the updates that are meant for it. */
  function Applied(db: Option<Bytes>, name: string, updates: seq<Update>, quirk: Quirk): Option<Bytes>
    decreases |updates|
  {
    if updates == [] then db
    else
      var before := Applied(db, name, updates[..|updates| - 1], quirk);
      var u := updates[|updates| - 1];
      if before.None? || u.db != name then before
      else if u.content.None? then None
      else DbUpdate(before.value, u.content.value, quirk)
  }

  method ApplyUpdates(db: VarFile, name: string, updates: seq<Update>, quirk: Quirk) returns (r: Option<Bytes>)
    ensures r == Applied(Current(db), name, updates, quirk)
  {
    r := Current(db);
    if r.None? {
      AppliedToNothing(name, updates, quirk);
      return;
    }
    for i := 0 to |updates|
      invariant r.Some? && r == Applied(Current(db), name, updates[..i], quirk)
    {
      assert updates[..i + 1][..i] == updates[..i];
      if updates[i].db == name {
        if updates[i].content.None? {
          AppliedFails(Current(db), name, updates, i + 1, quirk);
          return None;
        }
        r := ComputeDbUpdate(r.value, updates[i].content.value, quirk);
        if r.None? {
          AppliedFails(Current(db), name, updates, i + 1, quirk);
          return None;
        }
      }
    }
    assert updates[..|updates|] == updates;
  }

  lemma {:induction false} AppliedToNothing(name: string, updates: seq<Update>, quirk: Quirk)
    ensures Applied(None, name, updates, quirk) == None
    decreases |updates|
  {
    if updates != [] {
      AppliedToNothing(name, updates[..|updates| - 1], quirk);
    }
  }

  lemma {:induction false} AppliedFails(db: Option<Bytes>, name: string, updates: seq<Update>, i: nat, quirk: Quirk)
    requires i <= |updates| && Applied(db, name, updates[..i], quirk).None?
    ensures Applied(db, name, updates, quirk).None?
    decreases |updates|
  {
    if i < |updates| {
      assert updates[..|updates| - 1][..i] == updates[..i];
      AppliedFails(db, name, updates[..|updates| - 1], i, quirk);
    } else {
      assert updates[..i] == updates;
    }
  }

  /** The update can be appended. */
  ghost predicate WellFormed(u: Update) {
    && u.content.Some? && AfterAuthInfo(u.content.value).Some?
    && DecodeLists(AfterAuthInfo(u.content.value).value).Some?
  }

  /** The update is meant for the database, and brings the entry. */
  ghost predicate Brings(u: Update, name: string, e: Entry, quirk: Quirk) {
    && u.db == name && WellFormed(u)
    && HoldsEntry(Entries(DecodeLists(AfterAuthInfo(u.content.value).value).value), e, quirk)
  }

  ghost predicate SomeBrings(updates: seq<Update>, name: string, e: Entry, quirk: Quirk) {
    exists i :: 0 <= i < |updates| && Brings(updates[i], name, e, quirk)
  }

  ghost predicate AllWellFormed(updates: seq<Update>, name: string) {
    forall i | 0 <= i < |updates| && updates[i].db == name :: WellFormed(updates[i])
  }

  lemma {:induction false} BringsMore(updates: seq<Update>, u: Update, name: string, e: Entry, quirk: Quirk)
    ensures SomeBrings(updates + [u], name, e, quirk) <==>
            SomeBrings(updates, name, e, quirk) || Brings(u, name, e, quirk)
    ensures AllWellFormed(updates + [u], name) <==> AllWellFormed(updates, name) && (u.db == name ==> WellFormed(u))
  {
    var all := updates + [u];
    assert all[|updates|] == u && forall i | 0 <= i < |updates| :: all[i] == updates[i];
    if i :| 0 <= i < |updates| && Brings(updates[i], name, e, quirk) {
      assert Brings(all[i], name, e, quirk);
    }
    if Brings(u, name, e, quirk) {
      assert Brings(all[|updates|], name, e, quirk);
    }
  }

  /** What a database holds after the pending updates: what it held before, and what each update that is meant for it
      brings. It fails exactly if one of those is not well-formed. */
  lemma {:induction false} AppliedHolds(db: Bytes, name: string, updates: seq<Update>, quirk: Quirk, e: Entry)
    requires DecodeLists(db).Some?
    ensures Applied(Some(db), name, updates, quirk).Some? <==> AllWellFormed(updates, name)
    ensures AllWellFormed(updates, name) ==>
              var result := Applied(Some(db), name, updates, quirk).value;
              && DecodeLists(result).Some? && db <= result
              && (HoldsEntry(Entries(DecodeLists(result).value), e, quirk) <==>
                    || HoldsEntry(Entries(DecodeLists(db).value), e, quirk)
                    || SomeBrings(updates, name, e, quirk))
    decreases |updates|
  {
    if updates != [] {
      var n := |updates| - 1;
      var front, u := updates[..n], updates[n];
      assert updates == front + [u];
      BringsMore(front, u, name, e, quirk);
      AppliedHolds(db, name, front, quirk, e);
      if AllWellFormed(front, name) && u.db == name && u.content.Some? {
        UpdateHolds(Applied(Some(db), name, front, quirk).value, u, quirk, e);
      }
    }
  }

  lemma {:induction false} UpdateHolds(db: Bytes, u: Update, quirk: Quirk, e: Entry)
    requires DecodeLists(db).Some? && u.content.Some?
    ensures DbUpdate(db, u.content.value, quirk).Some? <==> WellFormed(u)
    ensures WellFormed(u) ==>
              var result := DbUpdate(db, u.content.value, quirk).value;
              && DecodeLists(result).Some? && db <= result
              && (HoldsEntry(Entries(DecodeLists(result).value), e, quirk) <==>
                    || HoldsEntry(Entries(DecodeLists(db).value), e, quirk)
                    || Brings(u, u.db, e, quirk))
  {
    UpdateAppends(db, u.content.value, quirk);
    if WellFormed(u) {
      HoldsAfter(Entries(DecodeLists(db).value),
                 Entries(DecodeLists(AfterAuthInfo(u.content.value).value).value), e, quirk);
    }
  }

  // ----------------------------------------------------- the log before the OS

  predicate IsConfig(e: LogEvent, guid: Bytes, name: string) {
    && e.pcrIndex == SECURE_BOOT_PCR && e.eventType == VariableDriverConfig
    && e.data.Variable? && e.data.guid == guid && e.data.name == name
  }

  predicate IsVerification(e: LogEvent) {
    e.pcrIndex == SECURE_BOOT_PCR && e.eventType == VariableAuthority
  }

  datatype PreOsError = BadDatabase

  type Replay = Result<Root, PreOsError>

  function Measure7(root: Root, d: Digest): Root {
    root.(measured := root.measured + [d])
  }

  function MeasureFirmware(root: Root, d: Digest): Root {
    Root(root.measured + [d], root.ctx.(firmwareEvents := root.ctx.firmwareEvents + [d]))
  }

  function MeasureDb(alg: HashAlg, root: Root, guid: Bytes, name: string, db: Option<Bytes>): Replay {
    if db.None? then Failure(BadDatabase) else Success(Measure7(root, VariableDigest(alg, guid, name, db.value)))
  }

  /** The environment of a replay. */
  datatype Env = Env(alg: HashAlg, vars: DbVars, updates: seq<Update>, quirk: Quirk)

  function DbBytes(env: Env): Option<Bytes> {
    Applied(Current(env.vars.db), "db", env.updates, env.quirk)
  }

  function ReplayEvent(env: Env, root: Root, e: LogEvent): Replay
    requires env.alg in e.digests
  {
    if IsConfig(e, GLOBAL_VARIABLE_GUID, "KEK") then
      MeasureDb(env.alg, root, GLOBAL_VARIABLE_GUID, "KEK",
                Applied(Current(env.vars.kek), "KEK", env.updates, env.quirk))
    else if IsConfig(e, IMAGE_SECURITY_GUID, "db") then
      match MeasureDb(env.alg, root, IMAGE_SECURITY_GUID, "db", DbBytes(env))
      case Failure(err) => Failure(err)
      case Success(r) =>
        match DecodeLists(DbBytes(env).value)
        case None => Failure(BadDatabase)
        case Some(lists) => Success(r.(ctx := r.ctx.(uefiDb := Some(Db(IMAGE_SECURITY_GUID, "db", Entries(lists))))))
    else if IsConfig(e, IMAGE_SECURITY_GUID, "dbx") then
      MeasureDb(env.alg, root, IMAGE_SECURITY_GUID, "dbx",
                Applied(Current(env.vars.dbx), "dbx", env.updates, env.quirk))
    else if IsVerification(e) then Success(MeasureFirmware(root, e.digests[env.alg]))
    else if e.pcrIndex == SECURE_BOOT_PCR then Success(Measure7(root, e.digests[env.alg]))
    else Success(root)
  }

  function ReplayEvents(env: Env, events: seq<LogEvent>): Replay
    requires HaveDigests(env.alg, events)
    decreases |events|
  {
    if events == [] then Success(Root([], Context(None, None, [], [])))
    else
      match ReplayEvents(env, events[..|events| - 1])
      case Failure(err) => Failure(err)
      case Success(root) => ReplayEvent(env, root, events[|events| - 1])
  }

  /** The verification of the first OS image, and whether the same measurement was already there for another image. */
  datatype Launch = Launch(position: nat, inPreOs: bool)

  /** Everything before the verification of the first OS image. */
  function PreOs(env: Env, events: seq<LogEvent>, launch: Launch): Replay
    requires HaveDigests(env.alg, events) && launch.position < |events|
  {
    match ReplayEvents(env, events[..launch.position])
    case Failure(err) => Failure(err)
    case Success(root) =>
      Success(if launch.inPreOs then MeasureFirmware(root, events[launch.position].digests[env.alg]) else root)
  }

  method ProcessPreOSEvent(env: Env, root: Root, e: LogEvent) returns (r: Replay)
    requires env.alg in e.digests
    ensures r == ReplayEvent(env, root, e)
  {
    if IsConfig(e, GLOBAL_VARIABLE_GUID, "KEK") {
      var bytes := ApplyUpdates(env.vars.kek, "KEK", env.updates, env.quirk);
      return MeasureDb(env.alg, root, GLOBAL_VARIABLE_GUID, "KEK", bytes);
    } else if IsConfig(e, IMAGE_SECURITY_GUID, "db") {
      var bytes := ApplyUpdates(env.vars.db, "db", env.updates, env.quirk);
      r := MeasureDb(env.alg, root, IMAGE_SECURITY_GUID, "db", bytes);
      if r.Success? {
        var entries := DecodeSecureBootDb(bytes.value);
        if entries.None? {
          return Failure(BadDatabase);
        }
        return Success(r.value.(ctx := r.value.ctx.(uefiDb := Some(Db(IMAGE_SECURITY_GUID, "db", entries.value)))));
      }
    } else if IsConfig(e, IMAGE_SECURITY_GUID, "dbx") {
      var bytes := ApplyUpdates(env.vars.dbx, "dbx", env.updates, env.quirk);
      return MeasureDb(env.alg, root, IMAGE_SECURITY_GUID, "dbx", bytes);
    } else if IsVerification(e) {
      return Success(MeasureFirmware(root, e.digests[env.alg]));
    } else if e.pcrIndex == SECURE_BOOT_PCR {
      return Success(Measure7(root, e.digests[env.alg]));
    } else {
      return Success(root);
    }
  }

  lemma {:induction false} ReplayFails(env: Env, events: seq<LogEvent>, i: nat, err: PreOsError)
    requires HaveDigests(env.alg, events) && i <= |events| && ReplayEvents(env, events[..i]) == Failure(err)
    ensures ReplayEvents(env, events) == Failure(err)
    decreases |events|
  {
    if i < |events| {
      assert events[..|events| - 1][..i] == events[..i];
      ReplayFails(env, events[..|events| - 1], i, err);
    } else {
      assert events[..i] == events;
    }
  }

  /** Replays the log up to the verification of the first OS image. */
  method ProcessPreOSEvents(env: Env, events: seq<LogEvent>, launch: Launch) returns (r: Replay)
    requires HaveDigests(env.alg, events) && launch.position < |events|
    ensures r == PreOs(env, events, launch)
  {
    var root := Root([], Context(None, None, [], []));
    ghost var before := events[..launch.position];
    for i := 0 to launch.position
      invariant Success(root) == ReplayEvents(env, before[..i])
    {
      r := ProcessPreOSEvent(env, root, events[i]);
      assert before[..i + 1][..i] == before[..i] && before[i] == events[i];
      if r.Failure? {
        ReplayFails(env, before, i + 1, r.error);
        return;
      }
      root := r.value;
    }
    assert before[..launch.position] == before;
    if launch.inPreOs {
      root := MeasureFirmware(root, events[launch.position].digests[env.alg]);
    }
    return Success(root);
  }

  // ------------------------------------------------------ what the replay measures

  /** The variable that an event of PCR 7 configures, if it is a signature database. */
  ghost predicate Configures(e: LogEvent, guid: Bytes, name: string) {
    && e.pcrIndex == 7 && e.eventType == VariableDriverConfig
    && e.data.Variable? && e.data.guid == guid && e.data.name == name
  }

  /** The contents that a signature database will have, for an event that configures one. */
  ghost function FutureDb(env: Env, e: LogEvent): Option<(Bytes, string, Option<Bytes>)> {
    if Configures(e, GLOBAL_VARIABLE_GUID, "KEK") then
      Some((GLOBAL_VARIABLE_GUID, "KEK", Applied(Current(env.vars.kek), "KEK", env.updates, env.quirk)))
    else if Configures(e, IMAGE_SECURITY_GUID, "db") then
      Some((IMAGE_SECURITY_GUID, "db", Applied(Current(env.vars.db), "db", env.updates, env.quirk)))
    else if Configures(e, IMAGE_SECURITY_GUID, "dbx") then
      Some((IMAGE_SECURITY_GUID, "dbx", Applied(Current(env.vars.dbx), "dbx", env.updates, env.quirk)))
    else None
  }

  /** The event can be replayed: a signature database that it configures can be computed, and the authorized one can
      be decoded. */
  ghost predicate CanReplayEvent(env: Env, e: LogEvent) {
    match FutureDb(env, e)
    case None => true
    case Some((_, name, bytes)) => bytes.Some? && (name == "db" ==> DecodeLists(bytes.value).Some?)
  }

  /** The digest that a future boot measures for an event: the logged one, unless it is about a signature database. */
  ghost function FutureDigest(env: Env, e: LogEvent): Digest
    requires env.alg in e.digests && CanReplayEvent(env, e)
  {
    match FutureDb(env, e)
    case None => e.digests[env.alg]
    case Some((guid, name, bytes)) => VariableDigest(env.alg, guid, name, bytes.value)
  }

  ghost predicate Verifies(e: LogEvent) {
    e.pcrIndex == 7 && e.eventType == VariableAuthority
  }

  ghost function Verifications(events: seq<LogEvent>): (r: seq<bool>)
    ensures |r| == |events|
    ensures forall i | 0 <= i < |r| :: r[i] == Verifies(events[i])
  {
    seq(|events|, i requires 0 <= i < |events| => Verifies(events[i]))
  }

  lemma {:induction false} ReplayOne(env: Env, root: Root, e: LogEvent)
    requires env.alg in e.digests
    ensures ReplayEvent(env, root, e).Success? <==> CanReplayEvent(env, e)
    ensures ReplayEvent(env, root, e).Success? ==>
              var root' := ReplayEvent(env, root, e).value;
              && root'.measured == root.measured + (if e.pcrIndex == 7 then [FutureDigest(env, e)] else [])
              && root'.ctx.firmwareEvents ==
                 root.ctx.firmwareEvents + (if Verifies(e) then [e.digests[env.alg]] else [])
              && root'.ctx.shimEvents == root.ctx.shimEvents
  {
    assert root.measured + [] == root.measured && root.ctx.firmwareEvents + [] == root.ctx.firmwareEvents;
  }

  ghost predicate AllReplayable(env: Env, events: seq<LogEvent>) {
    forall i | 0 <= i < |events| :: CanReplayEvent(env, events[i])
  }

  /** `measured` are the future digests of the events of PCR 7, which are at the positions `at`. */
  ghost predicate MeasuredAt(env: Env, events: seq<LogEvent>, measured: Path, at: seq<nat>)
    requires HaveDigests(env.alg, events) && AllReplayable(env, events)
  {
    && Enumerates(at, OfPcr(events, 7)) && |measured| == |at|
    && forall k | 0 <= k < |at| :: measured[k] == FutureDigest(env, events[at[k]])
  }

  /** `digests` are the logged digests of the verifications, which are at the positions `at`. */
  ghost predicate VerifiedAt(alg: HashAlg, events: seq<LogEvent>, digests: Path, at: seq<nat>)
    requires HaveDigests(alg, events)
  {
    && Enumerates(at, Verifications(events)) && |digests| == |at|
    && forall k | 0 <= k < |at| :: digests[k] == events[at[k]].digests[alg]
  }

  lemma {:induction false} MeasuredMore(env: Env, events: seq<LogEvent>, e: LogEvent, measured: Path, at: seq<nat>)
    requires HaveDigests(env.alg, events + [e]) && AllReplayable(env, events + [e])
    requires HaveDigests(env.alg, events) && AllReplayable(env, events) && MeasuredAt(env, events, measured, at)
    requires env.alg in e.digests && CanReplayEvent(env, e)
    ensures MeasuredAt(env, events + [e], measured + (if e.pcrIndex == 7 then [FutureDigest(env, e)] else []),
                       at + if e.pcrIndex == 7 then [|events|] else [])
  {
    var all := events + [e];
    assert all[..|events|] == events && all[|events|] == e;
    OfPcrMore(all, 7);
    EnumeratesMore(at, OfPcr(events, 7), e.pcrIndex == 7);
  }

  lemma {:induction false} VerifiedMore(alg: HashAlg, events: seq<LogEvent>, e: LogEvent, digests: Path, at: seq<nat>)
    requires HaveDigests(alg, events + [e]) && HaveDigests(alg, events) && VerifiedAt(alg, events, digests, at)
    requires alg in e.digests
    ensures VerifiedAt(alg, events + [e], digests + (if Verifies(e) then [e.digests[alg]] else []),
                       at + if Verifies(e) then [|events|] else [])
  {
    var all := events + [e];
    assert all[..|events|] == events && all[|events|] == e;
    assert Verifications(all) == Verifications(events) + [Verifies(e)];
    EnumeratesMore(at, Verifications(events), Verifies(e));
  }

  lemma {:induction false} ReplayableMore(env: Env, events: seq<LogEvent>, e: LogEvent)
    ensures AllReplayable(env, events + [e]) <==> AllReplayable(env, events) && CanReplayEvent(env, e)
  {
    var all := events + [e];
    assert all[|events|] == e && forall i | 0 <= i < |events| :: all[i] == events[i];
  }

  lemma {:induction false} ReplayMeasures(env: Env, events: seq<LogEvent>) returns (at: seq<nat>, verified: seq<nat>)
    requires HaveDigests(env.alg, events)
    ensures ReplayEvents(env, events).Success? <==> AllReplayable(env, events)
    ensures ReplayEvents(env, events).Success? ==>
              && MeasuredAt(env, events, ReplayEvents(env, events).value.measured, at)
              && VerifiedAt(env.alg, events, ReplayEvents(env, events).value.ctx.firmwareEvents, verified)
              && ReplayEvents(env, events).value.ctx.shimEvents == []
    decreases |events|
  {
    at, verified := [], [];
    if events != [] {
      var n := |events| - 1;
      var before, e := events[..n], events[n];
      assert events == before + [e];
      at, verified := ReplayMeasures(env, before);
      ReplayableMore(env, before, e);
      if AllReplayable(env, before) {
        var root := ReplayEvents(env, before).value;
        ReplayOne(env, root, e);
        if CanReplayEvent(env, e) {
          MeasuredMore(env, before, e, root.measured, at);
          VerifiedMore(env.alg, before, e, root.ctx.firmwareEvents, verified);
        }
        at := at + if e.pcrIndex == 7 then [n] else [];
        verified := verified + if Verifies(e) then [n] else [];
      }
    }
  }

  /** What the log before the OS contributes: a digest for each event of PCR 7 in order, which is the logged one except
      for signature databases, and the verification of the first OS image if it was there before. */
  lemma {:induction false} PreOsMeasures(env: Env, events: seq<LogEvent>, launch: Launch)
      returns (at: seq<nat>, verified: seq<nat>)
    requires HaveDigests(env.alg, events) && launch.position < |events|
    ensures PreOs(env, events, launch).Success? <==> AllReplayable(env, events[..launch.position])
    ensures PreOs(env, events, launch).Success? ==>
              var root := PreOs(env, events, launch).value;
              var before := events[..launch.position];
              var last := if launch.inPreOs then [events[launch.position].digests[env.alg]] else [];
              && |at| <= |root.measured| && MeasuredAt(env, before, root.measured[..|at|], at)
              && root.measured[|at|..] == last
              && |verified| <= |root.ctx.firmwareEvents|
              && VerifiedAt(env.alg, before, root.ctx.firmwareEvents[..|verified|], verified)
              && root.ctx.firmwareEvents[|verified|..] == last && root.ctx.shimEvents == []
  {
    var before := events[..launch.position];
    at, verified := ReplayMeasures(env, before);
    if AllReplayable(env, before) {
      var root := ReplayEvents(env, before).value;
      var last := if launch.inPreOs then [events[launch.position].digests[env.alg]] else [];
      SplitPath(root.measured, last);
      SplitPath(root.ctx.firmwareEvents, last);
    }
  }

  lemma {:induction false} SplitPath(a: Path, b: Path)
    ensures (a + b)[..|a|] == a && (a + b)[|a|..] == b && a + [] == a
  {
  }

  /** The databases are those that the log was made with. */
  ghost predicate AsLogged(env: Env, e: LogEvent)
    requires env.alg in e.digests
  {
    match FutureDb(env, e)
    case None => true
    case Some((guid, name, bytes)) =>
      bytes.Some? && e.digests[env.alg] == VariableDigest(env.alg, guid, name, bytes.value)
  }

  /** With databases as logged, the log before the OS contributes what was logged. */
  lemma {:induction false} CurrentBootIsMeasured(env: Env, events: seq<LogEvent>, launch: Launch) returns (at: seq<nat>)
    requires HaveDigests(env.alg, events) && launch.position < |events| && PreOs(env, events, launch).Success?
    requires forall i | 0 <= i < launch.position :: AsLogged(env, events[i])
    ensures Enumerates(at, OfPcr(events[..launch.position], 7))
    ensures |PreOs(env, events, launch).value.measured| == |at| + if launch.inPreOs then 1 else 0
    ensures forall k | 0 <= k < |at| ::
              PreOs(env, events, launch).value.measured[k] == events[at[k]].digests[env.alg]
  {
    var verified;
    at, verified := PreOsMeasures(env, events, launch);
    var measured, before := PreOs(env, events, launch).value.measured, events[..launch.position];
    forall k | 0 <= k < |at|
      ensures measured[k] == events[at[k]].digests[env.alg]
    {
      assert AsLogged(env, events[at[k]]) && before[at[k]] == events[at[k]];
      assert measured[..|at|][k] == FutureDigest(env, before[at[k]]);
    }
  }

  // ------------------------------------------------ databases grow with updates

  ghost predicate HasDbEvent(events: seq<LogEvent>) {
    exists i :: 0 <= i < |events| && IsConfig(events[i], IMAGE_SECURITY_GUID, "db")
  }

  lemma {:induction false} HasDbEventNext(events: seq<LogEvent>, n: nat)
    requires |events| == n + 1
    ensures HasDbEvent(events) <==> HasDbEvent(events[..n]) || IsConfig(events[n], IMAGE_SECURITY_GUID, "db")
  {
    if i :| 0 <= i < |events| && IsConfig(events[i], IMAGE_SECURITY_GUID, "db") {
      assert i < n ==> events[..n][i] == events[i];
    }
    if i :| 0 <= i < n && IsConfig(events[..n][i], IMAGE_SECURITY_GUID, "db") {
      assert events[i] == events[..n][i];
    }
  }

  /** The database with the updates applied, as the replay puts it into the context. */
  ghost predicate IsDb(env: Env, db: Option<Db>) {
    && DbBytes(env).Some? && DecodeLists(DbBytes(env).value).Some?
    && db == Some(Db(IMAGE_SECURITY_GUID, "db", Entries(DecodeLists(DbBytes(env).value).value)))
  }

  lemma {:induction false} ReplayEventDb(env: Env, root: Root, e: LogEvent)
    requires env.alg in e.digests && ReplayEvent(env, root, e).Success?
    ensures
      var ctx := ReplayEvent(env, root, e).value.ctx;
      && ctx.shimDb == root.ctx.shimDb
      && if IsConfig(e, IMAGE_SECURITY_GUID, "db") then IsDb(env, ctx.uefiDb) else ctx.uefiDb == root.ctx.uefiDb
  {
  }

  /** The database that the replay leaves in the context. */
  lemma {:induction false} ReplayedDb(env: Env, events: seq<LogEvent>)
    requires HaveDigests(env.alg, events) && ReplayEvents(env, events).Success?
    ensures
      var ctx := ReplayEvents(env, events).value.ctx;
      && ctx.shimDb == None
      && if HasDbEvent(events) then IsDb(env, ctx.uefiDb) else ctx.uefiDb == None
    decreases |events|
  {
    if events != [] {
      var n := |events| - 1;
      ReplayedDb(env, events[..n]);
      HasDbEventNext(events, n);
      ReplayEventDb(env, ReplayEvents(env, events[..n]).value, events[n]);
    }
  }

  /** One more update never removes an entry. */
  lemma {:induction false} AppliedGrows(db: Option<Bytes>, name: string, updates: seq<Update>, i: nat, quirk: Quirk)
    requires i < |updates|
    requires
      var a, b := Applied(db, name, updates[..i], quirk), Applied(db, name, updates[..i + 1], quirk);
      a.Some? && b.Some? && DecodeLists(a.value).Some?
    ensures
      var a, b := Applied(db, name, updates[..i], quirk), Applied(db, name, updates[..i + 1], quirk);
      && DecodeLists(b.value).Some?
      && Entries(DecodeLists(a.value).value) <= Entries(DecodeLists(b.value).value)
  {
    assert updates[..i + 1][..i] == updates[..i];
    var a := Applied(db, name, updates[..i], quirk).value;
    if updates[i].db == name {
      UpdateAppends(a, updates[i].content.value, quirk);
    }
  }

  /** With one more update applied, the authorized signature database has grown. */
  lemma {:induction false} LevelGrows(env: Env, events: seq<LogEvent>, launch: Launch, i: nat)
    requires HaveDigests(env.alg, events) && launch.position < |events| && i < |env.updates|
    requires PreOs(env.(updates := env.updates[..i]), events, launch).Success?
    requires PreOs(env.(updates := env.updates[..i + 1]), events, launch).Success?
    ensures Grows(PreOs(env.(updates := env.updates[..i]), events, launch).value.ctx,
                  PreOs(env.(updates := env.updates[..i + 1]), events, launch).value.ctx)
  {
    var before := events[..launch.position];
    ReplayedDb(env.(updates := env.updates[..i]), before);
    ReplayedDb(env.(updates := env.updates[..i + 1]), before);
    if HasDbEvent(before) {
      AppliedGrows(Current(env.vars.db), "db", env.updates, i, env.quirk);
    }
  }

  lemma {:induction false} GrowsTrans(a: Context, b: Context, c: Context)
    requires Grows(a, b) && Grows(b, c)
    ensures Grows(a, c)
  {
  }

  /** The log can be replayed with each number of updates applied. */
  ghost predicate CanReplay(env: Env, events: seq<LogEvent>, launch: Launch)
    requires HaveDigests(env.alg, events) && launch.position < |events|
  {
    forall i | 0 <= i <= |env.updates| :: PreOs(env.(updates := env.updates[..i]), events, launch).Success?
  }

  /** The roots of a run: one for each number of applied updates. */
  function RootsOf(env: Env, events: seq<LogEvent>, launch: Launch): (r: seq<Root>)
    requires HaveDigests(env.alg, events) && launch.position < |events| && CanReplay(env, events, launch)
    ensures |r| == |env.updates| + 1
    ensures forall i | 0 <= i < |r| :: PreOs(env.(updates := env.updates[..i]), events, launch) == Success(r[i])
  {
    seq(|env.updates| + 1, i requires 0 <= i <= |env.updates| =>
          PreOs(env.(updates := env.updates[..i]), events, launch).value)
  }

  lemma {:induction false} RootsGrow(env: Env, events: seq<LogEvent>, launch: Launch, i: nat)
    requires HaveDigests(env.alg, events) && launch.position < |events| && CanReplay(env, events, launch)
    requires i <= |env.updates|
    ensures Grows(RootsOf(env, events, launch)[0].ctx, RootsOf(env, events, launch)[i].ctx)
    decreases i
  {
    if i > 0 {
      var roots := RootsOf(env, events, launch);
      RootsGrow(env, events, launch, i - 1);
      LevelGrows(env, events, launch, i - 1);
      GrowsTrans(roots[0].ctx, roots[i - 1].ctx, roots[i].ctx);
    }
  }

  /** If the current database boots anything, then no level of updates is left out of the profile. */
  lemma {:induction false} EveryLevelBoots(env: Env, events: seq<LogEvent>, launch: Launch, routes: seq<seq<LoadEvent>>,
                                           i: nat)
    requires HaveDigests(env.alg, events) && launch.position < |events| && CanReplay(env, events, launch)
    requires i <= |env.updates| && BootPaths(env.alg, RootsOf(env, events, launch)[0].ctx, routes) != []
    ensures RootPaths(env.alg, RootsOf(env, events, launch)[i], routes) != []
  {
    RootsGrow(env, events, launch, i);
    BootPathsInMore(env.alg, RootsOf(env, events, launch)[0].ctx, RootsOf(env, events, launch)[i].ctx, routes);
  }

  // -------------------------------------------------- the first OS image launch

  /** The transition from pre-OS to OS-present. */
  predicate IsTransition(e: LogEvent) {
    e.eventType == Separator && e.pcrIndex != SECURE_BOOT_PCR
  }

  predicate LoadsImage(e: LogEvent) {
    e.pcrIndex == BOOT_MANAGER_PCR && e.eventType == BootServicesApplication
  }

  predicate OsPresent(events: seq<LogEvent>, j: nat)
    requires j <= |events|
  {
    exists i :: 0 <= i < j && IsTransition(events[i])
  }

  /** The first image that is loaded after the transition. */
  ghost predicate FirstLoad(events: seq<LogEvent>, j: nat) {
    && j < |events| && LoadsImage(events[j]) && OsPresent(events, j)
    && forall i: nat | i < j && LoadsImage(events[i]) :: !OsPresent(events, i)
  }

  ghost predicate LastVerified(events: seq<LogEvent>, k: nat, j: nat) {
    && k < j <= |events| && IsVerification(events[k])
    && forall i | k < i < j :: !IsVerification(events[i])
  }

  ghost predicate NoneVerified(events: seq<LogEvent>, j: nat) {
    j <= |events| && forall i | 0 <= i < j :: !IsVerification(events[i])
  }

  datatype LaunchError = NoVerification | NoImageLoad

  /** The last verification before the first image that is loaded after the transition. */
  ghost predicate IsLaunch(events: seq<LogEvent>, launch: Launch) {
    && launch.position < |events|
    && (exists j: nat :: FirstLoad(events, j) && LastVerified(events, launch.position, j))
    && launch.inPreOs == !OsPresent(events, launch.position)
  }

  ghost predicate NoneLaunched(events: seq<LogEvent>, err: LaunchError) {
    match err
    case NoVerification => exists j: nat :: FirstLoad(events, j) && NoneVerified(events, j)
    case NoImageLoad => forall j: nat | j < |events| && LoadsImage(events[j]) :: !OsPresent(events, j)
  }

  lemma {:induction false} FirstLoadIsUnique(events: seq<LogEvent>, j: nat, j': nat)
    requires FirstLoad(events, j) && FirstLoad(events, j')
    ensures j == j'
  {
  }

  /** There is at most one launch, and an error means that there is none. */
  lemma {:induction false} LaunchIsUnique(events: seq<LogEvent>, launch: Launch, launch': Launch, err: LaunchError)
    requires IsLaunch(events, launch)
    ensures IsLaunch(events, launch') ==> launch' == launch
    ensures !NoneLaunched(events, err)
  {
    var j: nat :| FirstLoad(events, j) && LastVerified(events, launch.position, j);
    forall j': nat | FirstLoad(events, j')
      ensures j' == j
    {
      FirstLoadIsUnique(events, j, j');
    }
  }

  /** Finds the verification event of the first OS image. */
  method IdentifyInitialOSLaunchVerificationEvent(events: seq<LogEvent>) returns (r: Result<Launch, LaunchError>)
    ensures forall launch :: r == Success(launch) <==> IsLaunch(events, launch)
    ensures forall err :: r == Failure(err) <==> NoneLaunched(events, err)
  {
    r := FindLaunch(events);
    forall launch, err
      ensures r == Success(launch) <==> IsLaunch(events, launch)
      ensures r == Failure(err) <==> NoneLaunched(events, err)
    {
      if IsLaunch(events, launch) {
        LaunchIsUnique(events, launch, if r.Success? then r.value else launch, if r.Failure? then r.error else err);
      }
      if r.Success? {
        LaunchIsUnique(events, r.value, launch, err);
      }
    }
  }

  method FindLaunch(events: seq<LogEvent>) returns (r: Result<Launch, LaunchError>)
    ensures r.Success? ==> IsLaunch(events, r.value)
    ensures r.Failure? ==> NoneLaunched(events, r.error)
  {
    var preOs := true;
    var last: Option<Launch> := None;
    for i := 0 to |events|
      invariant preOs == !OsPresent(events, i)
      invariant forall j: nat | j < i && LoadsImage(events[j]) :: !OsPresent(events, j)
      invariant last.None? ==> NoneVerified(events, i)
      invariant last.Some? ==> LastVerified(events, last.value.position, i) &&
                               last.value.inPreOs == !OsPresent(events, last.value.position)
    {
      var e := events[i];
      if IsTransition(e) {
        preOs := false;
      } else if LoadsImage(e) {
        if !preOs {
          assert FirstLoad(events, i);
          if last.None? {
            return Failure(NoVerification);
          }
          return Success(last.value);
        }
      } else if IsVerification(e) {
        last := Some(Launch(i, preOs));
      }
    }
    return Failure(NoImageLoad);
  }

  // ----------------------------------------------------------- the whole profile

  const RETURNING_FROM_APPLICATION := "Returning from EFI Application from Boot Option"

  /** An event that makes the current boot unusable as a basis. */
  predicate Disturbs(e: LogEvent) {
    || (e.pcrIndex == BOOT_MANAGER_PCR && e.eventType == EfiAction && e.data == Text(RETURNING_FROM_APPLICATION))
    || (e.pcrIndex == SECURE_BOOT_PCR && e.eventType == VariableDriverConfig &&
        (!e.data.Variable? ||
         (e.data.guid == GLOBAL_VARIABLE_GUID && e.data.name == "SecureBoot" &&
          (e.index > 0 || e.data.value == [] || e.data.value[0] == 0))))
    || (e.pcrIndex == SECURE_BOOT_PCR && e.eventType == VariableAuthority &&
        (!e.data.Variable? || (e.data.guid == SHIM_GUID && e.data.name == "MokSBState")))
  }

  datatype PolicyError =
    | AlgorithmNotLogged
    | DisturbedBoot
    | NoLaunch(launchError: LaunchError)
    | CannotReplay
    | CannotRun(runError: RunError)

  /** Replays the log for every level of updates. */
  method ComputeRoots(env: Env, events: seq<LogEvent>, launch: Launch) returns (r: Option<seq<Root>>)
    requires HaveDigests(env.alg, events) && launch.position < |events|
    ensures r.Some? <==> CanReplay(env, events, launch)
    ensures r.Some? ==> r.value == RootsOf(env, events, launch)
  {
    var roots: seq<Root> := [];
    for i := 0 to |env.updates| + 1
      invariant |roots| == i
      invariant forall k | 0 <= k < i :: PreOs(env.(updates := env.updates[..k]), events, launch) == Success(roots[k])
    {
      var root := ProcessPreOSEvents(env.(updates := env.updates[..i]), events, launch);
      if root.Failure? {
        return None;
      }
      roots := roots + [root.value];
    }
    assert CanReplay(env, events, launch);
    assert roots == RootsOf(env, events, launch);
    return Some(roots);
  }

  /** A run of the generator contributes a choice. */
  ghost predicate Contributes(env: Env, events: seq<LogEvent>, launch: Launch, sequences: seq<LoadEvent>)
    requires HaveDigests(env.alg, events) && launch.position < |events|
  {
    CanReplay(env, events, launch) && Runs(env.alg, RootsOf(env, events, launch), sequences)
  }

  /** Why a run of the generator fails. */
  ghost predicate FailsWith(env: Env, events: seq<LogEvent>, launch: Launch, sequences: seq<LoadEvent>,
                            err: PolicyError)
    requires HaveDigests(env.alg, events) && launch.position < |events|
  {
    match err
    case CannotReplay => !CanReplay(env, events, launch)
    case CannotRun(e) =>
      CanReplay(env, events, launch) && FailsToRun(env.alg, RootsOf(env, events, launch), sequences, e)
    case _ => false
  }

  ghost function Choices(env: Env, events: seq<LogEvent>, launch: Launch, sequences: seq<LoadEvent>): seq<Path>
    requires HaveDigests(env.alg, events) && launch.position < |events| && CanReplay(env, events, launch)
  {
    AllRootPaths(env.alg, RootsOf(env, events, launch), RoutesFrom(sequences))
  }

  /** One run of the generator. */
  method RunWith(env: Env, events: seq<LogEvent>, launch: Launch, sequences: seq<LoadEvent>)
      returns (r: Result<Instr, PolicyError>)
    requires HaveDigests(env.alg, events) && launch.position < |events|
    ensures r.Success? <==> Contributes(env, events, launch, sequences)
    ensures r.Success? ==>
              MeansPaths(r.value, Pcr(env.alg, SECURE_BOOT_PCR), Choices(env, events, launch, sequences))
    ensures r.Failure? ==> FailsWith(env, events, launch, sequences, r.error)
  {
    var computed := ComputeRoots(env, events, launch);
    if computed.None? {
      return Failure(CannotReplay);
    }
    var gen := new Generator(env.alg);
    var instr := gen.Run(computed.value, sequences);
    if instr.Failure? {
      return Failure(CannotRun(instr.error));
    }
    return Success(instr.value);
  }

  lemma {:induction false} TwoChoicesMean(base: seq<Instr>, pcr: Pcr, i1: Instr, i2: Instr, paths1: seq<Path>,
                                          paths2: seq<Path>)
    requires MeansPaths(i1, pcr, paths1) && MeansPaths(i2, pcr, paths2)
    ensures Means(base + [AddOr([Profile([i1]), Profile([i2])])], base, pcr, paths1 + paths2)
  {
    var profiles := [Profile([i1]), Profile([i2])];
    forall vs, tpm
      ensures Denote(base + [AddOr(profiles)], vs, tpm) ==
              match Denote(base, vs, tpm)
              case Failure(p) => Failure(p)
              case Success(ws) => Success(Spread(ws, pcr, paths1 + paths2))
    {
      DenoteConcat(base, [AddOr(profiles)], vs, tpm);
      if Denote(base, vs, tpm).Success? {
        var ws := Denote(base, vs, tpm).value;
        TwoChoicesDenote(pcr, i1, i2, paths1, paths2, ws, tpm);
      }
    }
  }

  lemma {:induction false} TwoChoicesDenote(pcr: Pcr, i1: Instr, i2: Instr, paths1: seq<Path>, paths2: seq<Path>,
                                            vs: seq<PcrValues>, tpm: PcrValues)
    requires MeansPaths(i1, pcr, paths1) && MeansPaths(i2, pcr, paths2)
    ensures Denote([AddOr([Profile([i1]), Profile([i2])])], vs, tpm) == Success(Spread(vs, pcr, paths1 + paths2))
  {
    var profiles := [Profile([i1]), Profile([i2])];
    var or := [AddOr(profiles)];
    assert or[1..] == [] && profiles[1..] == [Profile([i2])] && profiles[1..][1..] == [];
    assert Denote([i1], vs, tpm) == Success(Spread(vs, pcr, paths1));
    assert Denote([i2], vs, tpm) == Success(Spread(vs, pcr, paths2));
    var s1, s2 := Spread(vs, pcr, paths1), Spread(vs, pcr, paths2);
    assert DenoteEach(profiles[1..], vs, tpm) == Success(s2 + []);
    assert s2 + [] == s2;
    SpreadConcat(vs, pcr, paths1, paths2);
  }

  /** The log of the current boot is a basis for the profile. */
  ghost predicate Usable(alg: HashAlg, log: Log) {
    alg in log.algorithms && forall i | 0 <= i < |log.events| :: !Disturbs(log.events[i])
  }

  /** A usable boot: nothing returned to the boot manager, secure boot was on from the start and never measured again,
      and shim verified what it started. */
  lemma {:induction false} UsableExactly(alg: HashAlg, log: Log)
    ensures Usable(alg, log) <==> alg in log.algorithms && forall i | 0 <= i < |log.events| :: Orderly(log.events[i])
  {
    forall i | 0 <= i < |log.events|
      ensures Disturbs(log.events[i]) <==> !Orderly(log.events[i])
    {
    }
  }

  ghost predicate Orderly(e: LogEvent) {
    && (e.pcrIndex == 4 && e.eventType == EfiAction ==>
          e.data != Text("Returning from EFI Application from Boot Option"))
    && (e.pcrIndex == 7 && e.eventType in {VariableDriverConfig, VariableAuthority} ==> e.data.Variable?)
    && (e.pcrIndex == 7 && e.eventType == VariableDriverConfig && e.data.guid == GLOBAL_VARIABLE_GUID ==>
          e.data.name != "SecureBoot" || (e.index == 0 && |e.data.value| > 0 && e.data.value[0] != 0))
    && (e.pcrIndex == 7 && e.eventType == VariableAuthority && e.data.guid == SHIM_GUID ==> e.data.name != "MokSBState")
  }

  /** Adds the secure boot policy profile: every way to boot with the current databases or any number of pending
      updates, for firmware that compares the owners of signatures and for firmware that does not. */
  method AddEFISecureBootPolicyProfile(before: Profile, alg: HashAlg, log: Log, vars: DbVars, updates: seq<Update>,
                                       sequences: seq<LoadEvent>)
      returns (r: Result<Profile, PolicyError>, ghost launch: Launch)
    requires Parsed(log)
    ensures r == Failure(AlgorithmNotLogged) <==> alg !in log.algorithms
    ensures r == Failure(DisturbedBoot) <==> alg in log.algorithms && !Usable(alg, log)
    ensures r == Failure(NoLaunch(NoVerification)) <==> Usable(alg, log) && NoneLaunched(log.events, NoVerification)
    ensures r == Failure(NoLaunch(NoImageLoad)) <==> Usable(alg, log) && NoneLaunched(log.events, NoImageLoad)
    ensures Usable(alg, log) && !NoneLaunched(log.events, NoVerification) && !NoneLaunched(log.events, NoImageLoad) ==>
              var strict := Env(alg, vars, updates, Strict);
              var loose := Env(alg, vars, updates, IgnoreOwner);
              && HaveDigests(alg, log.events) && IsLaunch(log.events, launch)
              && (r.Success? <==>
                    && Contributes(strict, log.events, launch, sequences)
                    && Contributes(loose, log.events, launch, sequences))
              && (r.Success? ==>
                    Means(r.value.instrs, before.instrs + [AddValue(Pcr(alg, SECURE_BOOT_PCR), Zeros(alg))],
                          Pcr(alg, SECURE_BOOT_PCR), Choices(strict, log.events, launch, sequences) +
                              Choices(loose, log.events, launch, sequences)))
              && (r.Failure? ==>
                    || FailsWith(strict, log.events, launch, sequences, r.error)
                    || (&& Contributes(strict, log.events, launch, sequences)
                        && FailsWith(loose, log.events, launch, sequences, r.error)))
  {
    launch := Launch(0, true);
    if alg !in log.algorithms {
      r := Failure(AlgorithmNotLogged);
      return;
    }
    for i := 0 to |log.events|
      invariant forall k | 0 <= k < i :: !Disturbs(log.events[k])
    {
      if Disturbs(log.events[i]) {
        r := Failure(DisturbedBoot);
        return;
      }
    }
    var found := IdentifyInitialOSLaunchVerificationEvent(log.events);
    if found.Failure? {
      r := Failure(NoLaunch(found.error));
      return;
    }
    launch := found.value;
    var first := RunWith(Env(alg, vars, updates, Strict), log.events, found.value, sequences);
    if first.Failure? {
      r := Failure(first.error);
      return;
    }
    var second := RunWith(Env(alg, vars, updates, IgnoreOwner), log.events, found.value, sequences);
    if second.Failure? {
      r := Failure(second.error);
      return;
    }
    var base := before.instrs + [AddValue(Pcr(alg, SECURE_BOOT_PCR), Zeros(alg))];
    TwoChoicesMean(base, Pcr(alg, SECURE_BOOT_PCR), first.value, second.value,
                   Choices(Env(alg, vars, updates, Strict), log.events, launch, sequences),
                   Choices(Env(alg, vars, updates, IgnoreOwner), log.events, launch, sequences));
    r := Success(Profile(base + [AddOr([Profile([first.value]), Profile([second.value])])]));
  }

  // ------------------------------------------------------- the values of PCR 7

  /** Booting along one of the routes, from one of the roots, measures the path. */
  ghost predicate BootsAlong(alg: HashAlg, roots: seq<Root>, routes: seq<seq<LoadEvent>>, path: Path) {
    exists i, rest ::
      0 <= i < |roots| && Walks(alg, roots[i].ctx, routes, rest) && path == roots[i].measured + rest
  }

  lemma {:induction false} FlattenMembers(more: seq<seq<Path>>, path: Path)
    ensures path in Flatten(more) <==> exists i :: 0 <= i < |more| && path in more[i]
    decreases |more|
  {
    if more != [] {
      FlattenMembers(more[1..], path);
      if i :| 0 <= i < |more| && path in more[i] {
        assert i > 0 ==> more[1..][i - 1] == more[i];
      }
      if i :| 0 <= i < |more[1..]| && path in more[1..][i] {
        assert more[i + 1] == more[1..][i];
      }
    }
  }

  lemma {:induction false} RootPathsMembers(alg: HashAlg, root: Root, routes: seq<seq<LoadEvent>>, path: Path)
    ensures path in RootPaths(alg, root, routes) <==>
            exists rest :: Walks(alg, root.ctx, routes, rest) && path == root.measured + rest
  {
    var paths := BootPaths(alg, root.ctx, routes);
    if path in RootPaths(alg, root, routes) {
      var k :| 0 <= k < |paths| && path == root.measured + paths[k];
      BootPathsMembers(alg, root.ctx, routes, paths[k]);
    }
    if rest :| Walks(alg, root.ctx, routes, rest) && path == root.measured + rest {
      BootPathsMembers(alg, root.ctx, routes, rest);
      var k :| 0 <= k < |paths| && paths[k] == rest;
      assert RootPaths(alg, root, routes)[k] == path;
    }
  }

  lemma {:induction false} AllRootPathsMembers(alg: HashAlg, roots: seq<Root>, routes: seq<seq<LoadEvent>>, path: Path)
    ensures path in AllRootPaths(alg, roots, routes) <==> BootsAlong(alg, roots, routes, path)
  {
    var each := EachRootPaths(alg, roots, routes);
    FlattenMembers(each, path);
    forall i | 0 <= i < |roots|
      ensures path in each[i] <==>
              exists rest :: Walks(alg, roots[i].ctx, routes, rest) && path == roots[i].measured + rest
    {
      RootPathsMembers(alg, roots[i], routes, path);
    }
  }

  /** The profile allows exactly the combinations of the caller with the values of PCR 7 that some boot leads to:
      along any of the routes, with any number of updates, and with either way to apply them. */
  lemma {:induction false} EvaluatesToBoots(before: Profile, instrs: seq<Instr>, alg: HashAlg, strict: seq<Root>,
                                            loose: seq<Root>, routes: seq<seq<LoadEvent>>, tpm: PcrValues, v: PcrValues)
    requires Means(instrs, before.instrs + [AddValue(Pcr(alg, SECURE_BOOT_PCR), Zeros(alg))], Pcr(alg, SECURE_BOOT_PCR),
                   AllRootPaths(alg, strict, routes) + AllRootPaths(alg, loose, routes))
    requires Evaluate(before, tpm).Success?
    ensures Evaluate(Profile(instrs), tpm).Success?
    ensures v in Evaluate(Profile(instrs), tpm).value <==>
            exists w, path ::
              && w in Evaluate(before, tpm).value
              && (BootsAlong(alg, strict, routes, path) || BootsAlong(alg, loose, routes, path))
              && v == w[Pcr(alg, SECURE_BOOT_PCR) := Fold(Zeros(alg), alg, path)]
  {
    var pcr := Pcr(alg, SECURE_BOOT_PCR);
    var paths := AllRootPaths(alg, strict, routes) + AllRootPaths(alg, loose, routes);
    EvaluatesToFolds(instrs, before, pcr, paths, tpm);
    FoldAlongMembers(Evaluate(before, tpm).value, pcr, Zeros(alg), paths, v);
    forall path
      ensures path in paths <==> BootsAlong(alg, strict, routes, path) || BootsAlong(alg, loose, routes, path)
    {
      AllRootPathsMembers(alg, strict, routes, path);
      AllRootPathsMembers(alg, loose, routes, path);
    }
  }
}
