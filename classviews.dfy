/** django_walletpass/classviews.py: the routed web service. Each handler
    reads the store (and, for create, destroy and the log endpoint,
    changes it) and returns a response. dateutil's parse and isoformat
    are given functions. */
module ClassViews {
  import opened Base
  import opened Models
  import opened Http
  import opened Listing
  import opened DeviceLog

  /** RegistrationsViewSet.list: 400 when the device has no pass of the
      type; a passesUpdatedSince that does not parse fails (the except
      branch reads `date` before any assignment); otherwise 204 when no
      pass was updated after it, and else the latest update time among
      the considered passes with the serials of those updated at it. */
  function List(
    passes: map<nat, Pass>, regs: map<nat, Registration>, device: string, passType: string,
    passesUpdatedSince: Option<string>, parseDate: string -> Option<Instant>, isoformat: Instant -> string
  ): (r: Response)
    ensures r == JsonStatus(BAD_REQUEST) <==> PassesOfDevice(passes, regs, device, passType) == {}
    ensures (PassesOfDevice(passes, regs, device, passType) != {} &&
             passesUpdatedSince.Some? && parseDate(passesUpdatedSince.value).None?)
      ==> r == Status(SERVER_ERROR)
    ensures r.status == OK || r.status == NO_CONTENT ==>
      passesUpdatedSince.None? || parseDate(passesUpdatedSince.value).Some?
    ensures (PassesOfDevice(passes, regs, device, passType) != {} &&
             (passesUpdatedSince.None? || parseDate(passesUpdatedSince.value).Some?))
      ==> && (ConsideredIds(passes, regs, device, passType, Since(passesUpdatedSince, parseDate)) == {} ==>
                r == JsonStatus(NO_CONTENT))
          && (ConsideredIds(passes, regs, device, passType, Since(passesUpdatedSince, parseDate)) != {} ==>
                r.status == OK)
    ensures r.status == NO_CONTENT ==>
      r == JsonStatus(NO_CONTENT) &&
      ConsideredIds(passes, regs, device, passType, Since(passesUpdatedSince, parseDate)) == {}
    ensures r.status == OK ==>
      var considered := ConsideredIds(passes, regs, device, passType, Since(passesUpdatedSince, parseDate));
      considered != {} &&
      r.body == SerialsJson(isoformat(LatestUpdate(passes, considered)),
                            Cohort(passes, considered, LatestUpdate(passes, considered))) &&
      r.body.serialNumbers != {}
    ensures r.status in {OK, NO_CONTENT, BAD_REQUEST, SERVER_ERROR}
  {
    var ids := PassesOfDevice(passes, regs, device, passType);
    if ids == {} then JsonStatus(BAD_REQUEST)
    else if passesUpdatedSince.Some? && parseDate(passesUpdatedSince.value).None? then Status(SERVER_ERROR)
    else
      var considered := ConsideredIds(passes, regs, device, passType, Since(passesUpdatedSince, parseDate));
      if considered == {} then JsonStatus(NO_CONTENT)
      else
        var t := LatestUpdate(passes, considered);
        LatestCohortNonEmpty(passes, considered);
        Response(OK, SerialsJson(isoformat(t), Cohort(passes, considered, t)), map[])
  }

  /** The watermark excludes the cohort it reports: when dateutil reads
      back what isoformat writes (microseconds included), sending the
      returned lastUpdated as passesUpdatedSince to an unchanged store
      gives 204. */
  lemma ListWatermarkExcludesCohort(
    passes: map<nat, Pass>, regs: map<nat, Registration>, device: string, passType: string,
    passesUpdatedSince: Option<string>, parseDate: string -> Option<Instant>, isoformat: Instant -> string)
    requires forall t :: parseDate(isoformat(t)) == Some(t)
    requires List(passes, regs, device, passType, passesUpdatedSince, parseDate, isoformat).status == OK
    ensures var next := Some(List(passes, regs, device, passType, passesUpdatedSince, parseDate, isoformat).body.lastUpdated);
            List(passes, regs, device, passType, next, parseDate, isoformat) == JsonStatus(NO_CONTENT)
  {
    var ids := PassesOfDevice(passes, regs, device, passType);
    var considered := ConsideredIds(passes, regs, device, passType, Since(passesUpdatedSince, parseDate));
    var t := LatestUpdate(passes, considered);
    var next := Some(isoformat(t));
    assert Since(next, parseDate) == Some(t);
    forall id | id in ids ensures passes[id].updatedAt <= t {
      if id !in considered {
        var m :| m in considered && passes[m].updatedAt == t;
      }
    }
    assert ConsideredIds(passes, regs, device, passType, Some(t)) == {};
  }

  /** get_pass followed by the token check of create, destroy and retrieve:
      the pass's key, a 404 (DRF turns get_object_or_404's Http404 into
      NotFound, whose body is its detail) or a 401. */
  function AuthorizedPass(passes: map<nat, Pass>, req: Request, passType: string, serial: string)
    : (r: Result<nat, Response>)
    requires UniquePassKeys(passes)
    ensures r.Success? <==>
      FindPass(passes, passType, serial).Some? && Authorized(req, passes[FindPass(passes, passType, serial).value].authenticationToken)
    ensures r.Success? ==> r.value in passes && HasKey(passes[r.value], passType, serial)
    ensures r.Failure? && FindPass(passes, passType, serial).None? ==> r.error == Detail(NOT_FOUND, NOT_FOUND_DETAIL)
    ensures r.Failure? && FindPass(passes, passType, serial).Some? ==> r.error == JsonStatus(UNAUTHORIZED)
  {
    match FindPass(passes, passType, serial)
    case None => Failure(Detail(NOT_FOUND, NOT_FOUND_DETAIL))
    case Some(id) =>
      if Authorized(req, passes[id].authenticationToken) then Success(id) else Failure(JsonStatus(UNAUTHORIZED))
  }

  /** LatestVersionViewSet.retrieve, passed through ConditionalGetMiddleware.
      In redirect mode an authorised request gets 302 to the file's URL;
      otherwise the archive with Last-Modified set to updated_at truncated
      to seconds, or 304 on a GET whose If-Modified-Since is not before
      that. A pass without a file fails (reading it raises). */
  function Retrieve(
    passes: map<nat, Pass>, req: Request, passType: string, serial: string,
    storageRedirect: bool, fileUrl: string -> string, dates: HttpDates
  ): (r: Response)
    requires UniquePassKeys(passes)
    ensures AuthorizedPass(passes, req, passType, serial).Failure? ==>
      r == AuthorizedPass(passes, req, passType, serial).error
    ensures AuthorizedPass(passes, req, passType, serial).Success? ==>
      var pass := passes[AuthorizedPass(passes, req, passType, serial).value];
      var lastModified := dates.format(EpochSeconds(pass.updatedAt));
      && (!HasStoredFile(pass) ==> r == Status(SERVER_ERROR))
      && (HasStoredFile(pass) && storageRedirect ==>
            r == Response(FOUND, EmptyJson, map["Location" := fileUrl(pass.data.value.name)]))
      && (HasStoredFile(pass) && !storageRedirect ==>
            var headers := map["Content-Type" := PKPASS_CONTENT_TYPE, "Content-Disposition" := PKPASS_DISPOSITION,
                               "Last-Modified" := lastModified];
            if req.verb == GET && NotModifiedSince(req, dates, dates.parse(lastModified))
            then r == NotModified(headers) && r.headers == map["Last-Modified" := lastModified]
            else r == Response(OK, PkPass(pass.data.value.archive), headers))
  {
    match AuthorizedPass(passes, req, passType, serial)
    case Failure(denied) => denied
    case Success(id) =>
      var pass := passes[id];
      if !HasStoredFile(pass) then Status(SERVER_ERROR)
      else if storageRedirect then Response(FOUND, EmptyJson, map["Location" := fileUrl(pass.data.value.name)])
      else
        var lastModified := dates.format(EpochSeconds(pass.updatedAt));
        var headers := map["Content-Type" := PKPASS_CONTENT_TYPE, "Content-Disposition" := PKPASS_DISPOSITION,
                           "Last-Modified" := lastModified];
        if req.verb == GET && NotModifiedSince(req, dates, dates.parse(headers["Last-Modified"]))
        then NotModified(headers)
        else Response(OK, PkPass(pass.data.value.archive), headers)
  }

  /** When http_date and parse_http_date_safe round-trip, an authorised GET
      of a stored pass outside redirect mode gets 304 exactly when
      If-Modified-Since parses to a non-zero time at or after the pass's
      update time truncated to seconds (a non-zero one); a HEAD never does. */
  lemma RetrieveNotModifiedExactly(
    passes: map<nat, Pass>, req: Request, passType: string, serial: string,
    fileUrl: string -> string, dates: HttpDates)
    requires UniquePassKeys(passes)
    requires DatesRoundTrip(dates)
    requires AuthorizedPass(passes, req, passType, serial).Success?
    requires HasStoredFile(passes[AuthorizedPass(passes, req, passType, serial).value])
    ensures var secs := EpochSeconds(passes[AuthorizedPass(passes, req, passType, serial).value].updatedAt);
      Retrieve(passes, req, passType, serial, false, fileUrl, dates).status == NOT_MODIFIED <==>
        req.verb == GET && req.ifModifiedSince.Some? && dates.parse(req.ifModifiedSince.value).Some? &&
        dates.parse(req.ifModifiedSince.value).value != 0 && secs != 0 &&
        secs <= dates.parse(req.ifModifiedSince.value).value
  {
    var secs := EpochSeconds(passes[AuthorizedPass(passes, req, passType, serial).value].updatedAt);
    assert dates.parse(dates.format(secs)) == Some(secs);
  }

  /** Whether the device already has a registration for the pass. */
  predicate Registered(regs: map<nat, Registration>, device: string, passId: nat) {
    RegistrationsFor(regs, device, passId) != {}
  }

  /** RegisterPassViewSet.create: 404 or 401 with nothing changed; 200
      with nothing changed when the device is already registered for the
      pass; otherwise a body without a push token fails, and a good one
      adds one registration with that token and emits PASS_REGISTERED
      (201). At most one registration per device and pass is kept. */
  method Create(db: Database, req: Request, device: string, passType: string, serial: string, body: RegistrationBody)
    returns (r: Response)
    requires db.Valid()
    modifies db
    ensures db.Valid()
    ensures db.passes == old(db.passes) && db.logs == old(db.logs)
    ensures OneRegistrationPerDevicePass(old(db.registrations)) ==> OneRegistrationPerDevicePass(db.registrations)
    ensures AuthorizedPass(old(db.passes), req, passType, serial).Failure? ==>
      r == AuthorizedPass(old(db.passes), req, passType, serial).error &&
      db.registrations == old(db.registrations) && db.events == old(db.events)
    ensures AuthorizedPass(old(db.passes), req, passType, serial).Success? ==>
      var id := AuthorizedPass(old(db.passes), req, passType, serial).value;
      && (Registered(old(db.registrations), device, id) ==>
            r == JsonStatus(OK) && db.registrations == old(db.registrations) && db.events == old(db.events))
      && (!Registered(old(db.registrations), device, id) && !body.PushToken? ==>
            r == Status(SERVER_ERROR) && db.registrations == old(db.registrations) && db.events == old(db.events))
      && (!Registered(old(db.registrations), device, id) && body.PushToken? ==>
            r == JsonStatus(CREATED) &&
            (exists key: nat :: key !in old(db.registrations) &&
               db.registrations == old(db.registrations)[key := Registration(device, body.token, id)]) &&
            db.events == old(db.events) + [PassRegistered(ClassViewsModule, id)])
  {
    var found := AuthorizedPass(db.passes, req, passType, serial);
    if found.Failure? {
      return found.error;
    }
    var id := found.value;
    if Registered(db.registrations, device, id) {
      return JsonStatus(OK);
    }
    if !body.PushToken? {
      return Status(SERVER_ERROR);
    }
    ghost var regs0 := db.registrations;
    var key := db.AddRegistration(Registration(device, body.token, id));
    db.Emit(PassRegistered(ClassViewsModule, id));
    if OneRegistrationPerDevicePass(regs0) {
      AddingUnregisteredKeepsOne(regs0, key, Registration(device, body.token, id));
    }
    r := JsonStatus(CREATED);
  }

  /** RegisterPassViewSet.destroy: 404 or 401 with nothing changed; 200
      with nothing changed when the device has no registration for the
      pass; otherwise every registration of the device for the pass, and
      no other, is deleted, PASS_UNREGISTERED is emitted, and 200. */
  method Destroy(db: Database, req: Request, device: string, passType: string, serial: string)
    returns (r: Response)
    requires db.Valid()
    modifies db
    ensures db.Valid()
    ensures db.passes == old(db.passes) && db.logs == old(db.logs)
    ensures OneRegistrationPerDevicePass(old(db.registrations)) ==> OneRegistrationPerDevicePass(db.registrations)
    ensures AuthorizedPass(old(db.passes), req, passType, serial).Failure? ==>
      r == AuthorizedPass(old(db.passes), req, passType, serial).error &&
      db.registrations == old(db.registrations) && db.events == old(db.events)
    ensures AuthorizedPass(old(db.passes), req, passType, serial).Success? ==>
      var id := AuthorizedPass(old(db.passes), req, passType, serial).value;
      && r == JsonStatus(OK)
      && (!Registered(old(db.registrations), device, id) ==>
            db.registrations == old(db.registrations) && db.events == old(db.events))
      && (Registered(old(db.registrations), device, id) ==>
            db.registrations == old(db.registrations) - RegistrationsFor(old(db.registrations), device, id) &&
            db.events == old(db.events) + [PassUnregistered(ClassViewsModule, id)])
  {
    var found := AuthorizedPass(db.passes, req, passType, serial);
    if found.Failure? {
      return found.error;
    }
    var id := found.value;
    if !Registered(db.registrations, device, id) {
      return JsonStatus(OK);
    }
    ghost var regs0 := db.registrations;
    db.DeleteRegistrations(RegistrationsFor(db.registrations, device, id));
    if OneRegistrationPerDevicePass(regs0) {
      SubmapKeepsOneRegistration(regs0, db.registrations);
    }
    db.Emit(PassUnregistered(ClassViewsModule, id));
    r := JsonStatus(OK);
  }

  /** The rows the log endpoint saves for a list of messages: each message
      parsed in list order, up to the first one whose parsing raises. */
  datatype LogBatch = LogBatch(saved: seq<Log>, failure: Option<LogError>)

  /** Saving outcomes in order: the rows up to the first failure, and that failure. */
  function Batch(outcomes: seq<Result<Log, LogError>>): (b: LogBatch)
    ensures |b.saved| <= |outcomes|
    ensures forall i :: 0 <= i < |b.saved| ==> outcomes[i] == Success(b.saved[i])
    ensures b.failure.None? <==> |b.saved| == |outcomes|
    ensures b.failure.Some? ==> outcomes[|b.saved|] == Failure(b.failure.value)
  {
    if outcomes == [] then LogBatch([], None)
    else
      var before := Batch(outcomes[..|outcomes| - 1]);
      if before.failure.Some? then before
      else
        match outcomes[|outcomes| - 1]
        case Failure(e) => LogBatch(before.saved, Some(e))
        case Success(log) => LogBatch(before.saved + [log], None)
  }

  /** What parse_log makes of each message, in order. */
  function ParseOutcomes(
    messages: seq<string>, now: Instant, t: Templates, parseTimestamp: string -> Option<Instant>,
    passes: map<nat, Pass>
  ): (outcomes: seq<Result<Log, LogError>>)
    ensures |outcomes| == |messages|
    ensures forall i :: 0 <= i < |messages| ==>
      outcomes[i] == ParseLog(NewLog(messages[i], now), messages[i], t, parseTimestamp, passes)
  {
    seq(|messages|, i requires 0 <= i < |messages| =>
      ParseLog(NewLog(messages[i], now), messages[i], t, parseTimestamp, passes))
  }

  function ParseLogBatch(
    messages: seq<string>, now: Instant, t: Templates, parseTimestamp: string -> Option<Instant>,
    passes: map<nat, Pass>
  ): (b: LogBatch)
    ensures |b.saved| <= |messages|
    ensures forall i :: 0 <= i < |b.saved| ==>
      ParseLog(NewLog(messages[i], now), messages[i], t, parseTimestamp, passes) == Success(b.saved[i])
    ensures b.failure.None? <==> |b.saved| == |messages|
    ensures b.failure.Some? ==>
      ParseLog(NewLog(messages[|b.saved|], now), messages[|b.saved|], t, parseTimestamp, passes) == Failure(b.failure.value)
  {
    Batch(ParseOutcomes(messages, now, t, parseTimestamp, passes))
  }

  /** LogViewSet.create: a body that does not parse is rejected (400, the
      ParseError of request.data with its detail); a
      missing "logs" is an empty list; each message makes a Log that
      parse_log fills in and saves; an exception ends the request with
      the rows saved so far kept (500). */
  method LogCreate(
    db: Database, body: LogBody, now: Instant, t: Templates, parseTimestamp: string -> Option<Instant>)
    returns (r: Response)
    requires db.Valid()
    modifies db
    ensures db.Valid()
    ensures db.passes == old(db.passes) && db.registrations == old(db.registrations) && db.events == old(db.events)
    ensures body.LogBodyUnparseable? ==>
      r == Detail(BAD_REQUEST, JSON_PARSE_ERROR_PREFIX + body.reason) && db.logs == old(db.logs)
    ensures body.NoLogs? ==> r == JsonStatus(OK) && db.logs == old(db.logs)
    ensures body.Logs? ==>
      var batch := ParseLogBatch(body.messages, now, t, parseTimestamp, old(db.passes));
      db.logs == old(db.logs) + batch.saved &&
      r == (if batch.failure.None? then JsonStatus(OK) else Status(SERVER_ERROR))
  {
    if body.LogBodyUnparseable? {
      return Detail(BAD_REQUEST, JSON_PARSE_ERROR_PREFIX + body.reason);
    }
    if body.NoLogs? {
      // request.data.get('logs', []): nothing to iterate over
      return JsonStatus(OK);
    }
    var messages := body.messages;
    ghost var outcomes := ParseOutcomes(messages, now, t, parseTimestamp, db.passes);
    var i := 0;
    while i < |messages|
      invariant 0 <= i <= |messages|
      invariant db.Valid()
      invariant db.passes == old(db.passes) && db.registrations == old(db.registrations) && db.events == old(db.events)
      invariant Batch(outcomes[..i]).failure.None?
      invariant db.logs == old(db.logs) + Batch(outcomes[..i]).saved
    {
      var message := messages[i];
      var parsed := ParseLog(NewLog(message, now), message, t, parseTimestamp, db.passes);
      assert parsed == outcomes[i];
      if parsed.Failure? {
        BatchStopsFrom(outcomes, i, |outcomes|);
        assert outcomes[..|outcomes|] == outcomes;
        return Status(SERVER_ERROR);
      }
      BatchSaves(outcomes, i);
      db.SaveLog(parsed.value);
      i := i + 1;
    }
    assert outcomes[..i] == outcomes;
    r := JsonStatus(OK);
  }

  /** The batch of one more outcome: the earlier batch when it already
      stopped, else that batch extended by the row or stopped by the failure. */
  lemma BatchStep(outcomes: seq<Result<Log, LogError>>, i: nat)
    requires i < |outcomes|
    ensures var before := Batch(outcomes[..i]);
      Batch(outcomes[..i + 1]) ==
        if before.failure.Some? then before
        else match outcomes[i]
          case Failure(e) => LogBatch(before.saved, Some(e))
          case Success(log) => LogBatch(before.saved + [log], None)
  {
    assert outcomes[..i + 1][..i] == outcomes[..i];
  }

  /** A successful outcome after a batch that has not stopped is saved next. */
  lemma BatchSaves(outcomes: seq<Result<Log, LogError>>, i: nat)
    requires i < |outcomes|
    requires Batch(outcomes[..i]).failure.None? && outcomes[i].Success?
    ensures Batch(outcomes[..i + 1]) == LogBatch(Batch(outcomes[..i]).saved + [outcomes[i].value], None)
  {
    BatchStep(outcomes, i);
  }

  /** A failure at outcome i ends the batch there: nothing after it is saved. */
  lemma {:induction false} BatchStopsFrom(outcomes: seq<Result<Log, LogError>>, i: nat, j: nat)
    requires i < j <= |outcomes|
    requires Batch(outcomes[..i]).failure.None? && outcomes[i].Failure?
    ensures Batch(outcomes[..j]) == LogBatch(Batch(outcomes[..i]).saved, Some(outcomes[i].error))
    decreases j
  {
    BatchStep(outcomes, j - 1);
    if j > i + 1 {
      BatchStopsFrom(outcomes, i, j - 1);
    }
  }
}
