/** The persistent entities of django_walletpass/models.py (Pass,
    Registration, Log), the signals the web service emits, and the
    in-memory database that stands for Django's tables. Push delivery
    and the loop that drops registrations the push service reports as
    gone (Pass.push_notification) live here too. */
module Models {
  import opened Base

  /** A timestamp: microseconds since the Unix epoch, in UTC. */
  type Instant = int

  const MICROS_PER_SECOND: int := 1_000_000

  /** A datetime truncated to whole seconds (what utctimetuple and
      strftime keep). */
  function TruncateToSecond(t: Instant): (r: Instant)
    ensures r <= t < r + MICROS_PER_SECOND
    ensures r % MICROS_PER_SECOND == 0
  {
    t - t % MICROS_PER_SECOND
  }

  /** calendar.timegm(t.utctimetuple()): whole seconds since the epoch. */
  function EpochSeconds(t: Instant): (r: int)
    ensures r * MICROS_PER_SECOND <= t < (r + 1) * MICROS_PER_SECOND
  {
    t / MICROS_PER_SECOND
  }

  /** The stored .pkpass file of a pass: its storage name and the archive,
      the zip file's members by relative path. */
  datatype StoredFile = StoredFile(name: string, archive: map<string, Bytes>)

  datatype Pass = Pass(
    passTypeIdentifier: string,
    serialNumber: string,
    authenticationToken: string,
    data: Option<StoredFile>,
    updatedAt: Instant)

  /** The pass has a stored file: a FieldFile is truthy only when it has
      a name, and reading or locating one without a name raises. */
  predicate HasStoredFile(p: Pass) {
    p.data.Some? && p.data.value.name != ""
  }

  datatype Registration = Registration(
    deviceLibraryIdentifier: string,
    pushToken: string,
    pazz: nat)

  /** A device log row. Every column but `message` and `createdAt` may be NULL. */
  datatype Log = Log(
    createdAt: Instant,
    status: Option<string>,
    taskType: Option<string>,
    passTypeIdentifier: Option<string>,
    serialNumber: Option<string>,
    pazz: Option<nat>,
    webServiceUrl: Option<string>,
    deviceId: Option<string>,
    msg: Option<string>,
    message: string)

  /** `Log(message=message)`: a fresh row, created now, with every optional column NULL. */
  function NewLog(message: string, now: Instant): (l: Log)
    ensures l.message == message && l.createdAt == now
    ensures l.status == None && l.taskType == None && l.passTypeIdentifier == None && l.serialNumber == None
    ensures l.pazz == None && l.webServiceUrl == None && l.deviceId == None && l.msg == None
  {
    Log(now, None, None, None, None, None, None, None, None, message)
  }

  /** Each of classviews.py, views.py and signals.py declares its own
      PASS_REGISTERED / PASS_UNREGISTERED signal objects; an event records
      which module's signal was sent. */
  datatype Origin = ClassViewsModule | LegacyViewsModule | SignalsModule

  datatype Event =
    | PassRegistered(origin: Origin, sender: nat)
    | PassUnregistered(origin: Origin, sender: nat)

  /** The status aioapns reports for a device token that is no longer valid. */
  const GONE: string := "410"

  /** unique_together = (pass_type_identifier, serial_number). */
  ghost predicate UniquePassKeys(passes: map<nat, Pass>) {
    forall a, b ::
      a in passes && b in passes &&
      passes[a].passTypeIdentifier == passes[b].passTypeIdentifier &&
      passes[a].serialNumber == passes[b].serialNumber
      ==> a == b
  }

  /** Every registration points at an existing pass (the foreign key). */
  ghost predicate RegistrationsReferToPasses(passes: map<nat, Pass>, regs: map<nat, Registration>) {
    forall r :: r in regs ==> regs[r].pazz in passes
  }

  /** The invariant that the register handlers maintain by checking before
      they insert: at most one registration per (device, pass). The table
      itself has no such constraint. */
  ghost predicate OneRegistrationPerDevicePass(regs: map<nat, Registration>) {
    forall a, b ::
      a in regs && b in regs &&
      regs[a].deviceLibraryIdentifier == regs[b].deviceLibraryIdentifier &&
      regs[a].pazz == regs[b].pazz
      ==> a == b
  }

  predicate HasKey(p: Pass, passType: string, serial: string) {
    p.passTypeIdentifier == passType && p.serialNumber == serial
  }

  /** Some pass other than `id` already has the type and serial: saving
      under them would break the unique constraint. */
  predicate Clashes(passes: map<nat, Pass>, id: Option<nat>, passType: string, serial: string) {
    exists other :: other in passes && Some(other) != id && HasKey(passes[other], passType, serial)
  }

  /** get_object_or_404(Pass, pass_type_identifier=..., serial_number=...):
      the primary key of the pass with that key, if any. */
  function FindPass(passes: map<nat, Pass>, passType: string, serial: string): (r: Option<nat>)
    requires UniquePassKeys(passes)
    ensures r.Some? ==> r.value in passes && HasKey(passes[r.value], passType, serial)
    ensures r.None? ==> forall id :: id in passes ==> !HasKey(passes[id], passType, serial)
  {
    if exists id :: id in passes && HasKey(passes[id], passType, serial) then
      var id :| id in passes && HasKey(passes[id], passType, serial);
      Some(id)
    else
      None
  }

  /** Registration.objects.filter(device_library_identifier=device, pazz=pass). */
  function RegistrationsFor(regs: map<nat, Registration>, device: string, passId: nat): (ids: set<nat>)
    ensures forall r :: r in ids <==> r in regs && regs[r].deviceLibraryIdentifier == device && regs[r].pazz == passId
  {
    set r | r in regs && regs[r].deviceLibraryIdentifier == device && regs[r].pazz == passId
  }

  /** A push response counts as "gone" when it carries the status '410'. */
  predicate PushGone(response: Option<string>) {
    response == Some(GONE)
  }

  /** Every push to a registration of pass `passId` gets a response. */
  predicate AllAnswered(regs: map<nat, Registration>, passId: nat, push: Registration -> Option<string>) {
    forall id :: id in regs && regs[id].pazz == passId ==> push(regs[id]).Some?
  }

  /** Once every registration of the pass was pushed with an answer, all were answered. */
  lemma AnsweredWhenAllDone(regs: map<nat, Registration>, done: set<nat>, passId: nat, push: Registration -> Option<string>)
    requires done == set id | id in regs && regs[id].pazz == passId
    requires forall id :: id in done ==> push(regs[id]).Some?
    ensures AllAnswered(regs, passId, push)
  {
  }

  /** A pass that no registration points at has every push answered. */
  lemma UnreferencedAllAnswered(regs: map<nat, Registration>, passId: nat, push: Registration -> Option<string>)
    requires forall id :: id in regs ==> regs[id].pazz != passId
    ensures AllAnswered(regs, passId, push)
  {
  }

  /** What Pass.push_notification leaves of the registration table when
      every push of pass `passId` got a response: the registrations of
      that pass whose push answered '410' are gone, every other one stays. */
  function SurvivingRegistrations(
    regs: map<nat, Registration>, passId: nat, push: Registration -> Option<string>
  ): (kept: map<nat, Registration>)
  {
    map r | r in regs && !(regs[r].pazz == passId && PushGone(push(regs[r]))) :: regs[r]
  }

  /** Pushing a pass keeps every registration of every other pass and every
      registration of this pass whose push was not answered with '410',
      and drops exactly the rest. */
  lemma SurvivingRegistrationsExact(
    regs: map<nat, Registration>, passId: nat, push: Registration -> Option<string>, r: nat)
    ensures r in SurvivingRegistrations(regs, passId, push) <==>
            r in regs && (regs[r].pazz != passId || !PushGone(push(regs[r])))
    ensures r in SurvivingRegistrations(regs, passId, push) ==>
            SurvivingRegistrations(regs, passId, push)[r] == regs[r]
  {
  }

  /** A table that agrees with the survivors key by key is the survivors' table. */
  lemma SurvivorsPointwise(
    regs: map<nat, Registration>, kept: map<nat, Registration>, passId: nat, push: Registration -> Option<string>)
    requires forall id :: id in kept <==> id in regs && !(regs[id].pazz == passId && PushGone(push(regs[id])))
    requires forall id :: id in kept ==> kept[id] == regs[id]
    ensures kept == SurvivingRegistrations(regs, passId, push)
  {
  }

  /** A table that still holds every registration whose push was not
      answered '410' holds every survivor. */
  lemma SurvivorsKept(
    regs: map<nat, Registration>, kept: map<nat, Registration>, passId: nat, push: Registration -> Option<string>)
    requires forall id :: id in regs && !(regs[id].pazz == passId && PushGone(push(regs[id]))) ==> id in kept
    ensures forall id :: id in SurvivingRegistrations(regs, passId, push) ==> id in kept
  {
  }

  /** The registration table `after` a push of pass `passId` that raised:
      part of `before`, values unchanged, and still every survivor. */
  predicate PushedPartly(
    before: map<nat, Registration>, after: map<nat, Registration>, passId: nat, push: Registration -> Option<string>)
  {
    && (forall reg :: reg in after ==> reg in before && after[reg] == before[reg])
    && (forall reg :: reg in SurvivingRegistrations(before, passId, push) ==> reg in after)
  }

  /** Pushing a pass a second time with the same responses drops nothing more. */
  lemma SurvivingRegistrationsIdempotent(regs: map<nat, Registration>, passId: nat, push: Registration -> Option<string>)
    ensures SurvivingRegistrations(SurvivingRegistrations(regs, passId, push), passId, push)
            == SurvivingRegistrations(regs, passId, push)
  {
  }

  /** Two complete pushes of a pass, each with its own answers, drop
      exactly the registrations of the pass that either push found gone,
      keeping the others' values. */
  lemma SurvivingTwoPushes(
    regs: map<nat, Registration>, passId: nat, push1: Registration -> Option<string>,
    push2: Registration -> Option<string>, r: nat)
    ensures r in SurvivingRegistrations(SurvivingRegistrations(regs, passId, push1), passId, push2) <==>
            r in regs && (regs[r].pazz != passId || (!PushGone(push1(regs[r])) && !PushGone(push2(regs[r]))))
    ensures r in SurvivingRegistrations(SurvivingRegistrations(regs, passId, push1), passId, push2) ==>
            SurvivingRegistrations(SurvivingRegistrations(regs, passId, push1), passId, push2)[r] == regs[r]
  {
  }

  /** Dropping registrations never creates a duplicate (device, pass) pair. */
  lemma {:induction false} SubmapKeepsOneRegistration(regs: map<nat, Registration>, kept: map<nat, Registration>)
    requires OneRegistrationPerDevicePass(regs)
    requires forall r :: r in kept ==> r in regs && kept[r] == regs[r]
    ensures OneRegistrationPerDevicePass(kept)
  {
    forall a, b |
      a in kept && b in kept &&
      kept[a].deviceLibraryIdentifier == kept[b].deviceLibraryIdentifier &&
      kept[a].pazz == kept[b].pazz
      ensures a == b
    {
      assert regs[a] == kept[a] && regs[b] == kept[b];
    }
  }

  /** Adding a registration for a (device, pass) pair that has none keeps
      at most one per pair. */
  lemma AddingUnregisteredKeepsOne(regs: map<nat, Registration>, key: nat, reg: Registration)
    requires OneRegistrationPerDevicePass(regs)
    requires key !in regs && RegistrationsFor(regs, reg.deviceLibraryIdentifier, reg.pazz) == {}
    ensures OneRegistrationPerDevicePass(regs[key := reg])
  {
    var regs2 := regs[key := reg];
    forall other | other in regs
      ensures !(regs[other].deviceLibraryIdentifier == reg.deviceLibraryIdentifier && regs[other].pazz == reg.pazz)
    {
      assert other !in RegistrationsFor(regs, reg.deviceLibraryIdentifier, reg.pazz);
    }
    forall a, b |
      a in regs2 && b in regs2 &&
      regs2[a].deviceLibraryIdentifier == regs2[b].deviceLibraryIdentifier && regs2[a].pazz == regs2[b].pazz
      ensures a == b
    {
      if a != key && b != key {
        assert regs[a] == regs2[a] && regs[b] == regs2[b];
      }
    }
  }

  datatype SaveError = IntegrityError
  datatype PushError = NoPushResponse

  /** The tables the handlers read and write, held in memory. */
  class Database {
    var passes: map<nat, Pass>
    var registrations: map<nat, Registration>
    var logs: seq<Log>
    var events: seq<Event>
    /** The next primary key the database hands out. */
    var nextId: nat

    ghost predicate Valid()
      reads this
    {
      && UniquePassKeys(passes)
      && RegistrationsReferToPasses(passes, registrations)
      && (forall id :: id in passes ==> id < nextId)
      && (forall id :: id in registrations ==> id < nextId)
    }

    constructor ()
      ensures Valid()
      ensures passes == map[] && registrations == map[] && logs == [] && events == []
    {
      passes, registrations, logs, events, nextId := map[], map[], [], [], 0;
    }

    /** Registration(...).save(): inserts a row under a fresh primary key. */
    method AddRegistration(reg: Registration) returns (id: nat)
      requires Valid() && reg.pazz in passes
      modifies this
      ensures Valid()
      ensures id !in old(registrations)
      ensures registrations == old(registrations)[id := reg]
      ensures passes == old(passes) && logs == old(logs) && events == old(events)
    {
      id := nextId;
      registrations := registrations[id := reg];
      nextId := nextId + 1;
    }

    /** queryset.delete() over the registrations with the given keys. */
    method DeleteRegistrations(ids: set<nat>)
      requires Valid()
      modifies this
      ensures Valid()
      ensures registrations == old(registrations) - ids
      ensures passes == old(passes) && logs == old(logs) && events == old(events) && nextId == old(nextId)
    {
      registrations := registrations - ids;
    }

    /** Signal.send: the event is recorded; receivers are modelled apart. */
    method Emit(e: Event)
      requires Valid()
      modifies this
      ensures Valid()
      ensures events == old(events) + [e]
      ensures passes == old(passes) && registrations == old(registrations) && logs == old(logs) && nextId == old(nextId)
    {
      events := events + [e];
    }

    /** Log.save(): appends a log row. */
    method SaveLog(l: Log)
      requires Valid()
      modifies this
      ensures Valid()
      ensures logs == old(logs) + [l]
      ensures passes == old(passes) && registrations == old(registrations) && events == old(events) && nextId == old(nextId)
    {
      logs := logs + [l];
    }

    /** Pass.save(): inserts (no primary key yet) or updates a pass, with
        updated_at set to the clock's value (auto_now). The unique
        (type, serial) constraint rejects a clash with another row. */
    method SavePass(id: Option<nat>, p: Pass, now: Instant) returns (r: Result<nat, SaveError>)
      requires Valid()
      requires id.Some? ==> id.value in passes
      modifies this
      ensures Valid()
      ensures registrations == old(registrations) && logs == old(logs) && events == old(events)
      ensures if Clashes(old(passes), id, p.passTypeIdentifier, p.serialNumber) then r == Failure(IntegrityError) && passes == old(passes)
              else r.Success? && (id.Some? ==> r.value == id.value) && (id.None? ==> r.value !in old(passes)) &&
                   passes == old(passes)[r.value := p.(updatedAt := now)]
    {
      if Clashes(passes, id, p.passTypeIdentifier, p.serialNumber) {
        return Failure(IntegrityError);
      }
      var key: nat;
      if id.Some? {
        key := id.value;
      } else {
        key := nextId;
        nextId := nextId + 1;
      }
      passes := passes[key := p.(updatedAt := now)];
      r := Success(key);
    }

    /** Pass.push_notification: pushes every registration of the pass and
        deletes those whose response status is '410'. `push` gives the
        response status of the push backend, or None when the backend
        swallowed an error and returned None; then `response.status`
        raises, which ends the loop with the deletions made so far kept. */
    method PushNotification(passId: nat, push: Registration -> Option<string>)
      returns (r: Result<(), PushError>)
      requires Valid()
      modifies this
      ensures Valid()
      ensures passes == old(passes) && logs == old(logs) && events == old(events) && nextId == old(nextId)
      ensures r.Success? <==> AllAnswered(old(registrations), passId, push)
      ensures r.Success? ==> registrations == SurvivingRegistrations(old(registrations), passId, push)
      ensures r.Failure? ==>
                (forall id :: id in registrations ==> id in old(registrations) && registrations[id] == old(registrations)[id]) &&
                (forall id :: id in SurvivingRegistrations(old(registrations), passId, push) ==> id in registrations)
    {
      ghost var regs0 := registrations;
      var todo := set id | id in registrations && registrations[id].pazz == passId;
      ghost var done: set<nat> := {};
      while todo != {}
        invariant passes == old(passes) && logs == old(logs) && events == old(events) && nextId == old(nextId)
        invariant todo !! done
        invariant todo + done == set id | id in regs0 && regs0[id].pazz == passId
        invariant forall id :: id in registrations <==> id in regs0 && !(id in done && PushGone(push(regs0[id])))
        invariant forall id :: id in registrations ==> registrations[id] == regs0[id]
        invariant forall id :: id in done ==> push(regs0[id]).Some?
        decreases todo
      {
        var id :| id in todo;
        var response := push(registrations[id]);
        if response.None? {
          assert id in regs0 && regs0[id].pazz == passId && push(regs0[id]).None?;
          SurvivorsKept(regs0, registrations, passId, push);
          r := Failure(NoPushResponse);
          return;
        }
        if response.value == GONE {
          registrations := registrations - {id};
        }
        todo := todo - {id};
        done := done + {id};
      }
      SurvivorsPointwise(regs0, registrations, passId, push);
      AnsweredWhenAllDone(regs0, done, passId, push);
      r := Success(());
    }
  }
}
