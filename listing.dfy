/** The queries behind "list updated serials" (classviews.py and views.py
    run the same ones): the passes of a type registered on a device, those
    updated after a date, the latest update among them and the serials of
    the passes updated at that latest instant. */
module Listing {
  import opened Base
  import opened Models

  /** Pass.objects.filter(registrations__device_library_identifier=device,
      pass_type_identifier=passType), as a set of primary keys. */
  function PassesOfDevice(passes: map<nat, Pass>, regs: map<nat, Registration>, device: string, passType: string)
    : (ids: set<nat>)
    ensures forall id :: id in ids <==>
      id in passes && passes[id].passTypeIdentifier == passType &&
      exists r :: r in regs && regs[r].pazz == id && regs[r].deviceLibraryIdentifier == device
  {
    set id | id in passes && passes[id].passTypeIdentifier == passType &&
      exists r :: r in regs && regs[r].pazz == id && regs[r].deviceLibraryIdentifier == device
  }

  /** .filter(updated_at__gt=since): strictly later than `since`. */
  function UpdatedAfter(passes: map<nat, Pass>, ids: set<nat>, since: Instant): (later: set<nat>)
    requires ids <= passes.Keys
    ensures later <= ids
    ensures forall id :: id in later <==> id in ids && passes[id].updatedAt > since
  {
    set id | id in ids && passes[id].updatedAt > since
  }

  /** The passes this device is told about: of the type, registered on
      the device, and updated strictly after `since` when one was sent. */
  function ConsideredIds(
    passes: map<nat, Pass>, regs: map<nat, Registration>, device: string, passType: string, since: Option<Instant>
  ): (ids: set<nat>)
    ensures ids <= PassesOfDevice(passes, regs, device, passType) && ids <= passes.Keys
    ensures forall id :: id in ids <==>
      id in PassesOfDevice(passes, regs, device, passType) && (since.Some? ==> passes[id].updatedAt > since.value)
  {
    var ids := PassesOfDevice(passes, regs, device, passType);
    if since.Some? then UpdatedAfter(passes, ids, since.value) else ids
  }

  /** The date a passesUpdatedSince parameter stands for; None when absent. */
  function Since(passesUpdatedSince: Option<string>, parseDate: string -> Option<Instant>): Option<Instant>
  {
    if passesUpdatedSince.Some? then parseDate(passesUpdatedSince.value) else None
  }

  /** Some pass of a non-empty set has the latest update. */
  lemma {:induction false} LatestExists(passes: map<nat, Pass>, ids: set<nat>)
    requires ids != {} && ids <= passes.Keys
    ensures exists m :: m in ids && forall id :: id in ids ==> passes[id].updatedAt <= passes[m].updatedAt
    decreases |ids|
  {
    var x :| x in ids;
    var rest := ids - {x};
    if rest == {} {
      assert ids == {x};
    } else {
      LatestExists(passes, rest);
      var m :| m in rest && forall id :: id in rest ==> passes[id].updatedAt <= passes[m].updatedAt;
      if passes[x].updatedAt <= passes[m].updatedAt {
        assert forall id :: id in ids ==> passes[id].updatedAt <= passes[m].updatedAt;
      } else {
        assert forall id :: id in ids ==> passes[id].updatedAt <= passes[x].updatedAt;
      }
    }
  }

  /** .aggregate(Max('updated_at')): the latest update among the passes. */
  function LatestUpdate(passes: map<nat, Pass>, ids: set<nat>): (t: Instant)
    requires ids != {} && ids <= passes.Keys
    ensures exists id :: id in ids && passes[id].updatedAt == t
    ensures forall id :: id in ids ==> passes[id].updatedAt <= t
  {
    LatestExists(passes, ids);
    var m :| m in ids && forall id :: id in ids ==> passes[id].updatedAt <= passes[m].updatedAt;
    passes[m].updatedAt
  }

  /** [p.serial_number for p in passes.filter(updated_at=t)]: the serials of
      the passes updated exactly at `t` (order and repetitions left out). */
  function Cohort(passes: map<nat, Pass>, ids: set<nat>, t: Instant): (serials: set<string>)
    requires ids <= passes.Keys
    ensures forall s :: s in serials <==> exists id :: id in ids && passes[id].updatedAt == t && passes[id].serialNumber == s
  {
    set id | id in ids && passes[id].updatedAt == t :: passes[id].serialNumber
  }

  /** The cohort at the latest update is never empty. */
  lemma LatestCohortNonEmpty(passes: map<nat, Pass>, ids: set<nat>)
    requires ids != {} && ids <= passes.Keys
    ensures Cohort(passes, ids, LatestUpdate(passes, ids)) != {}
  {
    var t := LatestUpdate(passes, ids);
    var id :| id in ids && passes[id].updatedAt == t;
    assert passes[id].serialNumber in Cohort(passes, ids, t);
  }

  /** Nothing is updated strictly after the latest update: a device that
      sends back exactly the latest update time gets nothing of this set. */
  lemma NothingAfterLatest(passes: map<nat, Pass>, ids: set<nat>)
    requires ids != {} && ids <= passes.Keys
    ensures UpdatedAfter(passes, ids, LatestUpdate(passes, ids)) == {}
  {
  }

  /** A watermark below the latest update returns at least the latest cohort again. */
  lemma LatestAfterEarlierWatermark(passes: map<nat, Pass>, ids: set<nat>, since: Instant)
    requires ids != {} && ids <= passes.Keys
    requires since < LatestUpdate(passes, ids)
    ensures UpdatedAfter(passes, ids, since) != {}
    ensures LatestUpdate(passes, UpdatedAfter(passes, ids, since)) == LatestUpdate(passes, ids)
    ensures Cohort(passes, UpdatedAfter(passes, ids, since), LatestUpdate(passes, ids))
            == Cohort(passes, ids, LatestUpdate(passes, ids))
  {
    var t := LatestUpdate(passes, ids);
    var later := UpdatedAfter(passes, ids, since);
    var id :| id in ids && passes[id].updatedAt == t;
    assert id in later;
  }
}
