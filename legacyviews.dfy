/** django_walletpass/views.py: the older, unrouted revision of the web
    service, over the same store. Dates in passesUpdatedSince and
    lastUpdated use the strict "%Y-%m-%d %H:%M:%S" form (whole seconds);
    strptime and strftime are given functions. latest_version goes
    through Django's @condition decorator with updated_at as its
    last-modified time. */
module LegacyViews {
  import opened Base
  import opened Models
  import opened Http
  import opened Listing

  const JSON_CONTENT_TYPE := "application/json"

  /** The names a Pass.objects.filter() lookup may start with: the
      primary key, Pass's own fields, and the reverse relations that
      Registration.pazz and Log.pazz declare with related_name. */
  const PASS_LOOKUP_NAMES: seq<string> := [
    "pk", "id", "pass_type_identifier", "serial_number", "authentication_token", "data", "updated_at",
    "registrations", "logs"]

  /** The first component of each keyword of the registrations filter as
      written: registration__device_library_identifier and pass_type_identifier. */
  const LEGACY_PASSES_LOOKUPS: seq<string> := ["registration", "pass_type_identifier"]

  /** The same filter through the declared reverse relation. */
  const CORRECTED_PASSES_LOOKUPS: seq<string> := ["registrations", "pass_type_identifier"]

  /** filter() resolving its keywords, in order: the first whose first
      component names nothing of Pass raises FieldError. */
  function FirstUnresolved(names: seq<string>, lookups: seq<string>): (r: Option<string>)
    ensures r.None? <==> forall i :: 0 <= i < |lookups| ==> lookups[i] in names
    ensures r.Some? ==> r.value in lookups && r.value !in names
    ensures r.Some? ==> exists i :: 0 <= i < |lookups| && lookups[i] == r.value &&
                                    forall j :: 0 <= j < i ==> lookups[j] in names
  {
    if lookups == [] then None
    else if lookups[0] !in names then Some(lookups[0])
    else FirstUnresolved(names, lookups[1..])
  }

  /** registrations as the code is written: its filter is resolved first,
      and a FieldError there is a 500; a filter that resolves behaves as
      the intended view below. */
  function RegistrationsAsWritten(
    passes: map<nat, Pass>, regs: map<nat, Registration>, device: string, passType: string,
    passesUpdatedSince: Option<string>, strptime: string -> Option<Instant>, strftime: Instant -> string
  ): (r: Response)
    ensures FirstUnresolved(PASS_LOOKUP_NAMES, LEGACY_PASSES_LOOKUPS).Some? ==> r == Status(SERVER_ERROR)
    ensures FirstUnresolved(PASS_LOOKUP_NAMES, LEGACY_PASSES_LOOKUPS).None? ==>
      r == Registrations(passes, regs, device, passType, passesUpdatedSince, strptime, strftime)
  {
    match FirstUnresolved(PASS_LOOKUP_NAMES, LEGACY_PASSES_LOOKUPS)
    case Some(_) => Status(SERVER_ERROR)
    case None => Registrations(passes, regs, device, passType, passesUpdatedSince, strptime, strftime)
  }

  /** "registration" is no field of Pass and not its reverse relation, so
      the filter as written raises FieldError on its first keyword. */
  lemma LegacyLookupUnresolved()
    ensures FirstUnresolved(PASS_LOOKUP_NAMES, LEGACY_PASSES_LOOKUPS) == Some("registration")
  {
    assert "registration" !in PASS_LOOKUP_NAMES by {
      assert forall i :: 0 <= i < |PASS_LOOKUP_NAMES| ==> PASS_LOOKUP_NAMES[i] != "registration";
    }
  }

  /** Through the declared related_name both keywords resolve. */
  lemma CorrectedLookupResolves()
    ensures FirstUnresolved(PASS_LOOKUP_NAMES, CORRECTED_PASSES_LOOKUPS) == None
  {
    assert CORRECTED_PASSES_LOOKUPS[0] == PASS_LOOKUP_NAMES[7];
    assert CORRECTED_PASSES_LOOKUPS[1] == PASS_LOOKUP_NAMES[2];
  }

  /** registrations with the lookup through `registrations` and the JSON
      content type passed as content_type: 404 when the device has no pass
      of the type; a passesUpdatedSince that is not in the strict form
      fails; otherwise 204 when no pass was updated after it, and else the
      latest update time, written in the strict form, with the serials of
      the passes updated at it. */
  function Registrations(
    passes: map<nat, Pass>, regs: map<nat, Registration>, device: string, passType: string,
    passesUpdatedSince: Option<string>, strptime: string -> Option<Instant>, strftime: Instant -> string
  ): (r: Response)
    ensures r == Status(NOT_FOUND) <==> PassesOfDevice(passes, regs, device, passType) == {}
    ensures (PassesOfDevice(passes, regs, device, passType) != {} &&
             passesUpdatedSince.Some? && strptime(passesUpdatedSince.value).None?)
      ==> r == Status(SERVER_ERROR)
    ensures (PassesOfDevice(passes, regs, device, passType) != {} &&
             (passesUpdatedSince.None? || strptime(passesUpdatedSince.value).Some?))
      ==> && (ConsideredIds(passes, regs, device, passType, Since(passesUpdatedSince, strptime)) == {} ==>
                r == Status(NO_CONTENT))
          && (ConsideredIds(passes, regs, device, passType, Since(passesUpdatedSince, strptime)) != {} ==>
                r.status == OK)
    ensures r.status == NO_CONTENT ==>
      r == Status(NO_CONTENT) &&
      ConsideredIds(passes, regs, device, passType, Since(passesUpdatedSince, strptime)) == {}
    ensures r.status == OK ==>
      var considered := ConsideredIds(passes, regs, device, passType, Since(passesUpdatedSince, strptime));
      considered != {} &&
      r.body == SerialsJson(strftime(LatestUpdate(passes, considered)),
                            Cohort(passes, considered, LatestUpdate(passes, considered))) &&
      r.body.serialNumbers != {} &&
      r.headers == map["Content-Type" := JSON_CONTENT_TYPE]
    ensures r.status in {OK, NO_CONTENT, NOT_FOUND, SERVER_ERROR}
  {
    var ids := PassesOfDevice(passes, regs, device, passType);
    if ids == {} then Status(NOT_FOUND)
    else if passesUpdatedSince.Some? && strptime(passesUpdatedSince.value).None? then Status(SERVER_ERROR)
    else
      var considered := ConsideredIds(passes, regs, device, passType, Since(passesUpdatedSince, strptime));
      if considered == {} then Status(NO_CONTENT)
      else
        var t := LatestUpdate(passes, considered);
        LatestCohortNonEmpty(passes, considered);
        Response(OK, SerialsJson(strftime(t), Cohort(passes, considered, t)),
                 map["Content-Type" := JSON_CONTENT_TYPE])
  }

  /** The code as written fails for every device, pass type and date,
      where the intended lookup, which resolves, answers 200 or 204 for a
      device with a registered pass of the type and no date or a date in
      the strict form. */
  lemma RegistrationsAsWrittenNeverLists(
    passes: map<nat, Pass>, regs: map<nat, Registration>, device: string, passType: string,
    passesUpdatedSince: Option<string>, strptime: string -> Option<Instant>, strftime: Instant -> string)
    ensures RegistrationsAsWritten(passes, regs, device, passType, passesUpdatedSince, strptime, strftime)
      == Status(SERVER_ERROR)
    ensures FirstUnresolved(PASS_LOOKUP_NAMES, CORRECTED_PASSES_LOOKUPS) == None
    ensures (PassesOfDevice(passes, regs, device, passType) != {} &&
             (passesUpdatedSince.None? || strptime(passesUpdatedSince.value).Some?))
      ==> Registrations(passes, regs, device, passType, passesUpdatedSince, strptime, strftime).status
            in {OK, NO_CONTENT}
  {
    LegacyLookupUnresolved();
    CorrectedLookupResolves();
  }

  /** Two maxima of one set of passes are the same time. */
  lemma LatestIsUnique(passes: map<nat, Pass>, ids: set<nat>, t: Instant)
    requires ids != {} && ids <= passes.Keys
    requires exists id :: id in ids && passes[id].updatedAt == t
    requires forall id :: id in ids ==> passes[id].updatedAt <= t
    ensures LatestUpdate(passes, ids) == t
  {
    var l := LatestUpdate(passes, ids);
    var a :| a in ids && passes[a].updatedAt == t;
    var b :| b in ids && passes[b].updatedAt == l;
  }

  /** The strict form keeps whole seconds only. When strptime reads back
      what strftime writes up to that truncation, resending the returned
      lastUpdated to an unchanged store gives 204 exactly when the latest
      update fell on a whole second; otherwise the device is sent the same
      lastUpdated and the same serials again. */
  lemma RegistrationsWatermark(
    passes: map<nat, Pass>, regs: map<nat, Registration>, device: string, passType: string,
    passesUpdatedSince: Option<string>, strptime: string -> Option<Instant>, strftime: Instant -> string)
    requires forall t :: strptime(strftime(t)) == Some(TruncateToSecond(t))
    requires Registrations(passes, regs, device, passType, passesUpdatedSince, strptime, strftime).status == OK
    ensures
      var first := Registrations(passes, regs, device, passType, passesUpdatedSince, strptime, strftime);
      var considered := ConsideredIds(passes, regs, device, passType, Since(passesUpdatedSince, strptime));
      var latest := LatestUpdate(passes, considered);
      var next := Registrations(passes, regs, device, passType, Some(first.body.lastUpdated), strptime, strftime);
      && (next == Status(NO_CONTENT) <==> TruncateToSecond(latest) == latest)
      && (TruncateToSecond(latest) != latest ==> next == first)
  {
    var ids := PassesOfDevice(passes, regs, device, passType);
    var considered := ConsideredIds(passes, regs, device, passType, Since(passesUpdatedSince, strptime));
    var t := LatestUpdate(passes, considered);
    var first := Registrations(passes, regs, device, passType, passesUpdatedSince, strptime, strftime);
    var w := TruncateToSecond(t);
    assert Since(Some(first.body.lastUpdated), strptime) == Some(w);
    // Every pass of the device is at or before the latest considered update.
    forall id | id in ids ensures passes[id].updatedAt <= t {
      if id !in considered {
        var m :| m in considered && passes[m].updatedAt == t;
      }
    }
    var m :| m in considered && passes[m].updatedAt == t;
    LatestIsUnique(passes, ids, t);
    var later := ConsideredIds(passes, regs, device, passType, Some(w));
    assert later == UpdatedAfter(passes, ids, w);
    if w == t {
      assert later == {};
    } else {
      LatestAfterEarlierWatermark(passes, ids, w);
      assert Cohort(passes, ids, t) == Cohort(passes, considered, t);
    }
  }

  /** int(dt.timestamp()): seconds since the epoch, truncated toward zero. */
  function TimestampSeconds(t: Instant): (secs: int)
    ensures t >= 0 ==> 0 <= secs * MICROS_PER_SECOND <= t < (secs + 1) * MICROS_PER_SECOND
    ensures t < 0 ==> (secs - 1) * MICROS_PER_SECOND < t <= secs * MICROS_PER_SECOND <= 0
  {
    if t >= 0 then t / MICROS_PER_SECOND else -((-t) / MICROS_PER_SECOND)
  }

  /** For times from 1970 on, the decorator's Last-Modified second is the
      one retrieve in classviews.py computes with timegm; before 1970 the
      two differ by one for a time that is not a whole second. */
  lemma TimestampSecondsAgreeAfterEpoch(t: Instant)
    ensures t >= 0 ==> TimestampSeconds(t) == EpochSeconds(t)
    ensures t < 0 && t % MICROS_PER_SECOND != 0 ==> TimestampSeconds(t) == EpochSeconds(t) + 1
  {
  }

  /** The last-modified time @condition works with: None when it is zero
      (a zero timestamp counts as absent). */
  function LastModified(t: Instant): (lm: Option<int>)
    ensures lm.Some? <==> TimestampSeconds(t) != 0
    ensures lm.Some? ==> lm.value == TimestampSeconds(t)
  {
    if TimestampSeconds(t) != 0 then Some(TimestampSeconds(t)) else None
  }

  predicate SafeMethod(req: Request) {
    req.verb == GET || req.verb == HEAD
  }

  /** latest_version under @condition(last_modified_func=latest_pass):
      latest_pass looks the pass up first (404); a GET or HEAD whose
      If-Modified-Since is not before the last-modified time gets 304
      without the view running, so before the token check; otherwise the
      view answers 401 on a wrong token, fails on a pass without a file,
      and else sends the archive. Every GET or HEAD response the view or
      the 304 path produces carries Last-Modified when that time is non-zero. */
  function LatestVersion(passes: map<nat, Pass>, req: Request, passType: string, serial: string, dates: HttpDates)
    : (r: Response)
    requires UniquePassKeys(passes)
    ensures FindPass(passes, passType, serial).None? ==> r == Status(NOT_FOUND)
    ensures FindPass(passes, passType, serial).Some? ==>
      var pass := passes[FindPass(passes, passType, serial).value];
      var lm := LastModified(pass.updatedAt);
      var stamped := if SafeMethod(req) && lm.Some? then map["Last-Modified" := dates.format(lm.value)] else map[];
      && (SafeMethod(req) && NotModifiedSince(req, dates, lm) ==>
            r == Response(NOT_MODIFIED, NoBody, stamped))
      && (!(SafeMethod(req) && NotModifiedSince(req, dates, lm)) ==>
            && (!Authorized(req, pass.authenticationToken) ==> r == Response(UNAUTHORIZED, NoBody, stamped))
            && (Authorized(req, pass.authenticationToken) && !HasStoredFile(pass) ==> r == Status(SERVER_ERROR))
            && (Authorized(req, pass.authenticationToken) && HasStoredFile(pass) ==>
                  r == Response(OK, PkPass(pass.data.value.archive),
                                map["Content-Type" := PKPASS_CONTENT_TYPE,
                                    "Content-Disposition" := PKPASS_DISPOSITION] + stamped)))
  {
    match FindPass(passes, passType, serial)
    case None => Status(NOT_FOUND)
    case Some(id) =>
      var pass := passes[id];
      var lm := LastModified(pass.updatedAt);
      var stamped := if SafeMethod(req) && lm.Some? then map["Last-Modified" := dates.format(lm.value)] else map[];
      if SafeMethod(req) && NotModifiedSince(req, dates, lm) then Response(NOT_MODIFIED, NoBody, stamped)
      else if !Authorized(req, pass.authenticationToken) then Response(UNAUTHORIZED, NoBody, stamped)
      else if !HasStoredFile(pass) then Status(SERVER_ERROR)
      else
        Response(OK, PkPass(pass.data.value.archive),
                 map["Content-Type" := PKPASS_CONTENT_TYPE, "Content-Disposition" := PKPASS_DISPOSITION] + stamped)
  }

  /** The 304 of latest_version does not look at the Authorization header,
      and a response that carries the pass never goes to a wrong token. */
  lemma LatestVersionFreshnessBeforeAuth(
    passes: map<nat, Pass>, req: Request, passType: string, serial: string, dates: HttpDates,
    authorization: Option<string>)
    requires UniquePassKeys(passes)
    ensures LatestVersion(passes, req, passType, serial, dates).status == NOT_MODIFIED ==>
      LatestVersion(passes, req.(authorization := authorization), passType, serial, dates)
        == LatestVersion(passes, req, passType, serial, dates)
    ensures LatestVersion(passes, req, passType, serial, dates).status == OK ==>
      Authorized(req, passes[FindPass(passes, passType, serial).value].authenticationToken)
  {
  }

  /** When http_date and parse_http_date_safe round-trip, latest_version
      gives 304 exactly to a GET or HEAD of an existing pass whose
      If-Modified-Since parses to a non-zero second not before the pass's
      non-zero timestamp. */
  lemma LatestVersionNotModifiedExactly(
    passes: map<nat, Pass>, req: Request, passType: string, serial: string, dates: HttpDates)
    requires UniquePassKeys(passes)
    requires DatesRoundTrip(dates)
    requires FindPass(passes, passType, serial).Some?
    ensures var secs := TimestampSeconds(passes[FindPass(passes, passType, serial).value].updatedAt);
      LatestVersion(passes, req, passType, serial, dates).status == NOT_MODIFIED <==>
        SafeMethod(req) && req.ifModifiedSince.Some? && dates.parse(req.ifModifiedSince.value).Some? &&
        dates.parse(req.ifModifiedSince.value).value != 0 && secs != 0 &&
        secs <= dates.parse(req.ifModifiedSince.value).value
  {
  }

  /** register_pass: 404 for an unknown pass and 401 on a wrong token, with
      nothing changed. A POST answers 200 with nothing changed when the
      device is registered for the pass, fails on a body without a push
      token, and else adds one registration and emits PASS_REGISTERED
      (201). A DELETE deletes every registration of the device for the pass
      and emits PASS_UNREGISTERED even when there was none (200). Any other
      method gets 400 with nothing changed. */
  method RegisterPass(
    db: Database, req: Request, device: string, passType: string, serial: string, body: RegistrationBody)
    returns (r: Response)
    requires db.Valid()
    modifies db
    ensures db.Valid()
    ensures db.passes == old(db.passes) && db.logs == old(db.logs)
    ensures OneRegistrationPerDevicePass(old(db.registrations)) ==> OneRegistrationPerDevicePass(db.registrations)
    ensures FindPass(old(db.passes), passType, serial).None? ==>
      r == Status(NOT_FOUND) && db.registrations == old(db.registrations) && db.events == old(db.events)
    ensures FindPass(old(db.passes), passType, serial).Some? ==>
      var id := FindPass(old(db.passes), passType, serial).value;
      var regs := old(db.registrations);
      if !Authorized(req, old(db.passes)[id].authenticationToken) then
        r == Status(UNAUTHORIZED) && db.registrations == regs && db.events == old(db.events)
      else if req.verb == POST then
        && (RegistrationsFor(regs, device, id) != {} ==>
              r == Status(OK) && db.registrations == regs && db.events == old(db.events))
        && (RegistrationsFor(regs, device, id) == {} && !body.PushToken? ==>
              r == Status(SERVER_ERROR) && db.registrations == regs && db.events == old(db.events))
        && (RegistrationsFor(regs, device, id) == {} && body.PushToken? ==>
              r == Status(CREATED) &&
              (exists key: nat :: key !in regs && db.registrations == regs[key := Registration(device, body.token, id)]) &&
              db.events == old(db.events) + [PassRegistered(LegacyViewsModule, id)])
      else if req.verb == DELETE then
        r == Status(OK) &&
        db.registrations == regs - RegistrationsFor(regs, device, id) &&
        db.events == old(db.events) + [PassUnregistered(LegacyViewsModule, id)]
      else
        r == Status(BAD_REQUEST) && db.registrations == regs && db.events == old(db.events)
  {
    var found := FindPass(db.passes, passType, serial);
    if found.None? {
      return Status(NOT_FOUND);
    }
    var id := found.value;
    if !Authorized(req, db.passes[id].authenticationToken) {
      return Status(UNAUTHORIZED);
    }
    var existing := RegistrationsFor(db.registrations, device, id);
    if req.verb == POST {
      if existing != {} {
        return Status(OK);
      }
      if !body.PushToken? {
        return Status(SERVER_ERROR);
      }
      ghost var regs0 := db.registrations;
      var key := db.AddRegistration(Registration(device, body.token, id));
      db.Emit(PassRegistered(LegacyViewsModule, id));
      if OneRegistrationPerDevicePass(regs0) {
        AddingUnregisteredKeepsOne(regs0, key, Registration(device, body.token, id));
      }
      return Status(CREATED);
    }
    if req.verb == DELETE {
      ghost var regs0 := db.registrations;
      db.DeleteRegistrations(existing);
      if OneRegistrationPerDevicePass(regs0) {
        SubmapKeepsOneRegistration(regs0, db.registrations);
      }
      db.Emit(PassUnregistered(LegacyViewsModule, id));
      return Status(OK);
    }
    r := Status(BAD_REQUEST);
  }

  /** The rows `Log(message=message).save()` writes for a list of
      messages, in order, with nothing parsed. */
  function RawLogs(messages: seq<string>, now: Instant): (logs: seq<Log>)
    ensures |logs| == |messages|
    ensures forall i :: 0 <= i < |messages| ==> logs[i] == NewLog(messages[i], now)
  {
    if messages == [] then [] else [NewLog(messages[0], now)] + RawLogs(messages[1..], now)
  }

  /** log: a body that does not parse or has no "logs" fails with nothing
      saved; otherwise each message is saved raw, in order (200). */
  method LogMessages(db: Database, body: LogBody, now: Instant) returns (r: Response)
    requires db.Valid()
    modifies db
    ensures db.Valid()
    ensures db.passes == old(db.passes) && db.registrations == old(db.registrations) && db.events == old(db.events)
    ensures !body.Logs? ==> r == Status(SERVER_ERROR) && db.logs == old(db.logs)
    ensures body.Logs? ==> r == Status(OK) && db.logs == old(db.logs) + RawLogs(body.messages, now)
  {
    if !body.Logs? {
      return Status(SERVER_ERROR);
    }
    var messages := body.messages;
    var i := 0;
    while i < |messages|
      invariant 0 <= i <= |messages|
      invariant db.Valid()
      invariant db.passes == old(db.passes) && db.registrations == old(db.registrations) && db.events == old(db.events)
      invariant db.logs == old(db.logs) + RawLogs(messages[..i], now)
    {
      assert RawLogs(messages[..i + 1], now) == RawLogs(messages[..i], now) + [NewLog(messages[i], now)];
      db.SaveLog(NewLog(messages[i], now));
      i := i + 1;
    }
    assert messages[..i] == messages;
    r := Status(OK);
  }
}
