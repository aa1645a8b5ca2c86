/** Log.parse_log (django_walletpass/models.py): classifying a message a
    device sends to the log endpoint. The four regular expressions are
    given functions from the message to the groups they capture; the
    dispatch among them, the status normalisation and the assignment of
    the log's columns are modelled as the source does them. */
module DeviceLog {
  import opened Base
  import opened Models

  /** Groups of the "register" template: timestamp, task type, device,
      pass type, serial number, web service URL, status, message. */
  datatype RegisterGroups = RegisterGroups(
    timestamp: string, taskType: string, deviceId: string, passTypeIdentifier: string,
    serialNumber: string, webServiceUrl: string, status: string, msg: string)

  /** Groups of the "get" and "get warning" templates (no device). */
  datatype GetGroups = GetGroups(
    timestamp: string, taskType: string, passTypeIdentifier: string,
    serialNumber: string, webServiceUrl: string, status: string, msg: string)

  /** Groups of the "web service error" template (no serial, no status). */
  datatype ErrorGroups = ErrorGroups(
    timestamp: string, taskType: string, passTypeIdentifier: string,
    webServiceUrl: string, msg: string)

  /** re.match of each of the four patterns: the groups, or None. */
  datatype Templates = Templates(
    register: string -> Option<RegisterGroups>,
    get: string -> Option<GetGroups>,
    webServiceError: string -> Option<ErrorGroups>,
    getWarning: string -> Option<GetGroups>)

  datatype Template = RegisterTemplate | GetTemplate | WebServiceErrorTemplate | GetWarningTemplate

  /** The values the chosen branch binds before the status is normalised;
      None stands for Python's None. */
  datatype Captured = Captured(
    template: Template, timestamp: string, taskType: string, deviceId: Option<string>,
    passTypeIdentifier: string, serialNumber: Option<string>, webServiceUrl: string,
    status: string, msg: string)

  /** The if/elif chain over the four matches: the first template that
      matches decides; the web-service-error branch forces the status
      "error" and the get-warning branch forces "warning". */
  function Classify(t: Templates, message: string): (r: Option<Captured>)
    ensures r.None? <==>
      t.register(message).None? && t.get(message).None? &&
      t.webServiceError(message).None? && t.getWarning(message).None?
    ensures r.Some? && r.value.template == RegisterTemplate <==> t.register(message).Some?
    ensures r.Some? && r.value.template == GetTemplate <==>
      t.register(message).None? && t.get(message).Some?
    ensures r.Some? && r.value.template == WebServiceErrorTemplate <==>
      t.register(message).None? && t.get(message).None? && t.webServiceError(message).Some?
    ensures r.Some? && r.value.template == GetWarningTemplate <==>
      t.register(message).None? && t.get(message).None? && t.webServiceError(message).None? &&
      t.getWarning(message).Some?
    ensures r.Some? && r.value.template == WebServiceErrorTemplate ==>
      r.value.status == "error" && r.value.serialNumber == None && r.value.deviceId == None
    ensures r.Some? && r.value.template == GetWarningTemplate ==>
      r.value.status == "warning" && r.value.deviceId == None
    ensures r.Some? && r.value.template == RegisterTemplate ==>
      var g := t.register(message).value;
      r.value.deviceId == Some(g.deviceId) && r.value.serialNumber == Some(g.serialNumber) &&
      r.value.status == g.status
  {
    var register := t.register(message);
    var get := t.get(message);
    var webServiceError := t.webServiceError(message);
    var getWarning := t.getWarning(message);
    if register.Some? then
      var g := register.value;
      Some(Captured(RegisterTemplate, g.timestamp, g.taskType, Some(g.deviceId), g.passTypeIdentifier,
                    Some(g.serialNumber), g.webServiceUrl, g.status, g.msg))
    else if get.Some? then
      var g := get.value;
      Some(Captured(GetTemplate, g.timestamp, g.taskType, None, g.passTypeIdentifier,
                    Some(g.serialNumber), g.webServiceUrl, g.status, g.msg))
    else if webServiceError.Some? then
      var g := webServiceError.value;
      Some(Captured(WebServiceErrorTemplate, g.timestamp, g.taskType, None, g.passTypeIdentifier,
                    None, g.webServiceUrl, "error", g.msg))
    else if getWarning.Some? then
      var g := getWarning.value;
      Some(Captured(GetWarningTemplate, g.timestamp, g.taskType, None, g.passTypeIdentifier,
                    Some(g.serialNumber), g.webServiceUrl, "warning", g.msg))
    else
      None
  }

  /** A status containing "error" collapses to "error"; otherwise one
      containing "warning" collapses to "warning"; any other is kept. */
  function NormaliseStatus(status: string): (r: string)
  {
    if Contains(status, "error") then "error"
    else if Contains(status, "warning") then "warning"
    else status
  }

  lemma ErrorContainsError()
    ensures Contains("error", "error")
  {
    assert StartsWith("error", "error");
  }

  lemma WarningContainsWarning()
    ensures Contains("warning", "warning")
  {
    assert StartsWith("warning", "warning");
  }

  lemma {:induction false} WarningLacksError()
    ensures !Contains("warning", "error")
  {
    ContainsAt("warning", "error");
    forall i | 0 <= i <= 2 ensures !OccursAt("warning", "error", i) {
      assert "warning"[i..i + 5][0] == "warning"[i];
    }
  }

  /** Normalisation gives "error" exactly for statuses containing "error",
      "warning" exactly for the others that contain "warning", and leaves
      every remaining status alone; applying it twice changes nothing. */
  lemma {:induction false} NormaliseStatusMeaning(status: string)
    ensures NormaliseStatus(status) == "error" <==> Contains(status, "error")
    ensures NormaliseStatus(status) == "warning" <==> !Contains(status, "error") && Contains(status, "warning")
    ensures !Contains(status, "error") && !Contains(status, "warning") ==> NormaliseStatus(status) == status
    ensures NormaliseStatus(NormaliseStatus(status)) == NormaliseStatus(status)
  {
    ErrorContainsError();
    WarningContainsWarning();
    WarningLacksError();
  }

  /** The passes whose serial number is `serial` (Pass.objects.filter(serial_number=serial)). */
  function PassesWithSerial(passes: map<nat, Pass>, serial: string): (ids: set<nat>)
    ensures forall id :: id in ids <==> id in passes && passes[id].serialNumber == serial
  {
    set id | id in passes && passes[id].serialNumber == serial
  }

  lemma SingletonMembers(s: set<nat>)
    requires |s| == 1
    ensures forall a, b :: a in s && b in s ==> a == b
  {
    forall a, b | a in s && b in s ensures a == b {
      assert |s - {a}| == 0;
      assert b !in s - {a};
    }
  }

  datatype LogError =
    | TimestampUnparseable      // strptime raised ValueError
    | MultiplePassesWithSerial  // Pass.objects.get raised MultipleObjectsReturned

  /** Pass.objects.get(serial_number=serial), with DoesNotExist caught:
      the pass when exactly one has that serial, nothing when none has it,
      and an error when several have it. */
  function LinkBySerial(passes: map<nat, Pass>, serial: string): (r: Result<Option<nat>, LogError>)
    ensures r == Failure(MultiplePassesWithSerial) <==> |PassesWithSerial(passes, serial)| > 1
    ensures r == Success(None) <==> PassesWithSerial(passes, serial) == {}
    ensures r.Success? && r.value.Some? ==>
      PassesWithSerial(passes, serial) == {r.value.value} && r.value.value in passes &&
      passes[r.value.value].serialNumber == serial
  {
    var ids := PassesWithSerial(passes, serial);
    if |ids| == 0 then Success(None)
    else if |ids| == 1 then
      SingletonMembers(ids);
      var id :| id in ids;
      assert ids == {id};
      Success(Some(id))
    else Failure(MultiplePassesWithSerial)
  }

  /** Log.parse_log(log, message): the row that is saved, or the error
      that escapes before it is saved. `parseTimestamp` is strptime with
      the format "%Y-%m-%d %H:%M:%S %p %z", converted to UTC. */
  function ParseLog(
    log: Log, message: string, t: Templates, parseTimestamp: string -> Option<Instant>,
    passes: map<nat, Pass>
  ): (r: Result<Log, LogError>)
    // No template matches: the row keeps its columns, gets status "unknown" and the raw message.
    ensures Classify(t, message).None? ==>
      r == Success(log.(status := Some("unknown"), message := message))
    // A match whose timestamp strptime rejects raises before anything is saved.
    ensures Classify(t, message).Some? && parseTimestamp(Classify(t, message).value.timestamp).None? ==>
      r == Failure(TimestampUnparseable)
    ensures r.Success? && Classify(t, message).Some? ==>
      var c := Classify(t, message).value;
      && parseTimestamp(c.timestamp).Some?
      && r.value.createdAt == parseTimestamp(c.timestamp).value
      && r.value.status == Some(NormaliseStatus(c.status))
      && r.value.taskType == Some(c.taskType)
      && r.value.deviceId == c.deviceId
      && r.value.passTypeIdentifier == Some(c.passTypeIdentifier)
      && r.value.serialNumber == c.serialNumber
      && r.value.webServiceUrl == Some(c.webServiceUrl)
      && r.value.msg == Some(c.msg)
      && r.value.message == message
    // A pass is linked only when a non-empty serial was captured and exactly one pass has it.
    ensures r.Success? && r.value.pazz != log.pazz ==>
      r.value.pazz.Some? &&
      var c := Classify(t, message).value;
      c.serialNumber.Some? && c.serialNumber.value != "" &&
      PassesWithSerial(passes, c.serialNumber.value) == {r.value.pazz.value}
    // A match with a readable timestamp is saved unless several passes have its serial.
    ensures Classify(t, message).Some? && parseTimestamp(Classify(t, message).value.timestamp).Some? ==>
      var c := Classify(t, message).value;
      && ((c.serialNumber.Some? && c.serialNumber.value != "" && |PassesWithSerial(passes, c.serialNumber.value)| > 1)
            <==> r == Failure(MultiplePassesWithSerial))
      && (r.Success? <==>
            !(c.serialNumber.Some? && c.serialNumber.value != "" && |PassesWithSerial(passes, c.serialNumber.value)| > 1))
    // The one pass with the captured serial is linked; without one the link is left as it was.
    ensures r.Success? && Classify(t, message).Some? ==>
      var c := Classify(t, message).value;
      if c.serialNumber.Some? && c.serialNumber.value != "" && |PassesWithSerial(passes, c.serialNumber.value)| == 1
      then r.value.pazz.Some? && PassesWithSerial(passes, c.serialNumber.value) == {r.value.pazz.value}
      else r.value.pazz == log.pazz
  {
    match Classify(t, message)
    case None =>
      Success(log.(status := Some("unknown"), message := message))
    case Some(c) =>
      var status := NormaliseStatus(c.status);
      match parseTimestamp(c.timestamp)
      case None => Failure(TimestampUnparseable)
      case Some(createdAt) =>
        var filled := log.(
          createdAt := createdAt, status := Some(status), taskType := Some(c.taskType),
          deviceId := c.deviceId, passTypeIdentifier := Some(c.passTypeIdentifier),
          serialNumber := c.serialNumber, webServiceUrl := Some(c.webServiceUrl),
          msg := Some(c.msg), message := message);
        if c.serialNumber.Some? && c.serialNumber.value != "" then
          match LinkBySerial(passes, c.serialNumber.value)
          case Failure(e) => Failure(e)
          case Success(None) => Success(filled)
          case Success(Some(id)) => Success(filled.(pazz := Some(id)))
        else
          Success(filled)
  }

  /** The get-warning pattern differs from the get pattern only in its
      tail, `(.*\.)\s(.*$)` against `(.*$)`, so on a message without a
      line break every match of the former is a match of the latter. As
      the get template is tried first, the get-warning branch is then never
      taken and a warning message keeps the status the get template
      captured (normalised). */
  lemma GetWarningBranchShadowed(t: Templates, message: string)
    requires t.getWarning(message).Some? ==> t.get(message).Some?
    ensures Classify(t, message).Some? ==> Classify(t, message).value.template != GetWarningTemplate
    ensures t.register(message).None? && t.getWarning(message).Some? ==>
      Classify(t, message).value.template == GetTemplate &&
      Classify(t, message).value.status == t.get(message).value.status
  {
  }
}
