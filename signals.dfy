/** django_walletpass/signals.py: the receivers connected to Pass's
    post_save signal and to TOKEN_UNREGISTERED. Pass.save() followed by
    its post_save receiver is modelled here as one method, since every
    save of a pass in this model goes through it. */
module Signals {
  import opened Base
  import opened Models

  datatype SaveFailure =
    | SaveRejected      // the unique (type, serial) constraint raised IntegrityError
    | PushUnanswered    // push_notification raised on a push without response

  /** Pass.save() with send_push_notification connected to post_save: the
      row is written (updated_at set to `now`), then the pass's
      registrations are pushed and those answered '410' are dropped.
      An exception in the receiver propagates out of save() after the row
      was written. */
  method SavePass(db: Database, id: Option<nat>, p: Pass, now: Instant, push: Registration -> Option<string>)
    returns (r: Result<nat, SaveFailure>)
    requires db.Valid()
    requires id.Some? ==> id.value in db.passes
    modifies db
    ensures db.Valid()
    ensures db.logs == old(db.logs) && db.events == old(db.events)
    ensures r == Failure(SaveRejected) <==> Clashes(old(db.passes), id, p.passTypeIdentifier, p.serialNumber)
    ensures r == Failure(SaveRejected) ==> db.passes == old(db.passes) && db.registrations == old(db.registrations)
    ensures r.Success? ==>
      (id.Some? ==> r.value == id.value) && (id.None? ==> r.value !in old(db.passes)) &&
      db.passes == old(db.passes)[r.value := p.(updatedAt := now)] &&
      db.registrations == SurvivingRegistrations(old(db.registrations), r.value, push) &&
      AllAnswered(old(db.registrations), r.value, push)
    // A new pass has no registrations, so only an update can meet a push without response.
    ensures (id.Some? && !Clashes(old(db.passes), id, p.passTypeIdentifier, p.serialNumber) &&
             !AllAnswered(old(db.registrations), id.value, push)) ==> r == Failure(PushUnanswered)
    ensures r == Failure(PushUnanswered) ==>
      id.Some? && !AllAnswered(old(db.registrations), id.value, push) &&
      db.passes == old(db.passes)[id.value := p.(updatedAt := now)] &&
      (forall reg :: reg in db.registrations ==>
         reg in old(db.registrations) && db.registrations[reg] == old(db.registrations)[reg]) &&
      (forall reg :: reg in SurvivingRegistrations(old(db.registrations), id.value, push) ==> reg in db.registrations)
  {
    var saved := db.SavePass(id, p, now);
    if saved.Failure? {
      return Failure(SaveRejected);
    }
    var key := saved.value;
    if id.None? {
      UnreferencedAllAnswered(db.registrations, key, push);
    }
    var pushed := SendPushNotification(db, key, push);
    if pushed.Failure? {
      return Failure(PushUnanswered);
    }
    r := Success(key);
  }

  /** send_push_notification: the post_save receiver calls the saved
      pass's push_notification. */
  method SendPushNotification(db: Database, passId: nat, push: Registration -> Option<string>)
    returns (r: Result<(), PushError>)
    requires db.Valid()
    modifies db
    ensures db.Valid()
    ensures db.passes == old(db.passes) && db.logs == old(db.logs) && db.events == old(db.events)
    ensures r.Success? <==> AllAnswered(old(db.registrations), passId, push)
    ensures r.Success? ==> db.registrations == SurvivingRegistrations(old(db.registrations), passId, push)
    ensures r.Failure? ==>
      (forall reg :: reg in db.registrations ==>
         reg in old(db.registrations) && db.registrations[reg] == old(db.registrations)[reg]) &&
      (forall reg :: reg in SurvivingRegistrations(old(db.registrations), passId, push) ==> reg in db.registrations)
  {
    r := db.PushNotification(passId, push);
  }

  /** The keys of the registrations whose push token is `token`
      (Registration.objects.filter(push_token=token)). */
  function RegistrationsWithToken(regs: map<nat, Registration>, token: string): (ids: set<nat>)
    ensures forall id :: id in ids <==> id in regs && regs[id].pushToken == token
  {
    set id | id in regs && regs[id].pushToken == token
  }

  datatype LookupFailure =
    | RegistrationDoesNotExist          // Registration.DoesNotExist
    | MultipleRegistrationsReturned     // Registration.MultipleObjectsReturned

  /** delete_registration: on a GONE push result, the one registration
      with the request's device token is deleted and PASS_UNREGISTERED is
      sent with its pass as sender; any other status leaves everything as
      it was. `get` raises when no registration or several have the token. */
  method DeleteRegistration(db: Database, resultStatus: string, deviceToken: string)
    returns (r: Result<(), LookupFailure>)
    requires db.Valid()
    modifies db
    ensures db.Valid()
    ensures db.passes == old(db.passes) && db.logs == old(db.logs)
    ensures resultStatus != GONE ==>
      r.Success? && db.registrations == old(db.registrations) && db.events == old(db.events)
    ensures r.Failure? ==> db.registrations == old(db.registrations) && db.events == old(db.events)
    ensures resultStatus == GONE ==>
      (r == Failure(RegistrationDoesNotExist) <==> RegistrationsWithToken(old(db.registrations), deviceToken) == {}) &&
      (r == Failure(MultipleRegistrationsReturned) <==> |RegistrationsWithToken(old(db.registrations), deviceToken)| > 1)
    ensures resultStatus == GONE && r.Success? ==>
      exists id :: RegistrationsWithToken(old(db.registrations), deviceToken) == {id} &&
        id in old(db.registrations) &&
        db.registrations == old(db.registrations) - {id} &&
        db.events == old(db.events) + [PassUnregistered(SignalsModule, old(db.registrations)[id].pazz)]
  {
    if resultStatus != GONE {
      return Success(());
    }
    var ids := RegistrationsWithToken(db.registrations, deviceToken);
    if |ids| == 0 {
      return Failure(RegistrationDoesNotExist);
    }
    if |ids| > 1 {
      return Failure(MultipleRegistrationsReturned);
    }
    var id :| id in ids;
    assert ids == {id} by {
      forall other | other in ids ensures other == id {
        assert |ids - {id}| == 0;
        assert other !in ids - {id};
      }
    }
    var pass := db.registrations[id].pazz;
    db.DeleteRegistrations({id});
    db.Emit(PassUnregistered(SignalsModule, pass));
    r := Success(());
  }
}
