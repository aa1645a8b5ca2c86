# django-walletpass, modelled in Dafny

django-walletpass builds Apple Wallet passes (`.pkpass` archives) and serves
the Wallet web service that devices call to register for a pass, to learn which
passes changed, to download the latest version and to send their logs. This
project models three parts of it and proves properties of the model.

- **The pass builder.** This is `PassBuilder` in `django_walletpass/models.py`.
  - A build stages the pass's source directory, the added files and a
    `pass.json` (the loaded data with the five required identifier fields merged
    in). It then writes `manifest.json` (path → hex SHA-1) and a detached
    signature of the manifest, and zips the result.
  - `write_to_model` stores the archive in a `Pass`.
  - `Pass.get_pass_builder` reads a stored archive back into a fresh builder.
  - `Pass.new_pass_builder` makes a builder with the pass's identifiers.
  - The builder is a `class` with the source's fields. Each step is a method
    proved against pure functions of its inputs (module `Bundle`). The build as
    a whole, the manifest, the archive and the load-back round trip are proved
    about those functions.
- **The store and its signals.** This is `Pass.save` with its `post_save`
  receiver, which pushes the pass to every registered device and deletes the
  registrations the push service answers `410` (`Pass.push_notification`).
  It also covers the `TOKEN_UNREGISTERED` receiver (`django_walletpass/signals.py`)
  and `Log.parse_log`. Django's tables are the class `Models.Database`. Its
  invariants are unique (type, serial) keys and registrations that point at
  passes.
- **The web service handlers.** Module `ClassViews` covers the routed
  `django_walletpass/classviews.py`. Module `LegacyViews` covers the older,
  unrouted `django_walletpass/views.py`, over the same store.
  - Both variants are modelled as functions of the store and the request, or as
    methods on the store.
  - Their differences are stated in the contracts and lemmas:
    - the legacy date format keeps only whole seconds;
    - in the legacy handler, Django's `@condition` answers 304 before the
      token check;
    - the legacy DELETE always emits `PASS_UNREGISTERED`;
    - the legacy log endpoint stores messages raw.

Parameters stand in for everything the code calls and that is not modelled:
- SHA-1, `json.dumps`/`json.loads`, PKCS#7 signing;
- the push backend's answer per registration, one function per push run
  (each save runs its own), the regular expressions of
  `parse_log`, `strptime`, dateutil's `parse`, `isoformat`, `http_date` and
  `parse_http_date_safe`;
- the clock, the random serial/token and the `uuid1` file name.

Round-trip hypotheses about these parameters are stated as `requires` on the
lemmas that need them. Time is an integer count of microseconds since the Unix
epoch.

Where the code does something other than what it evidently means, the model
follows the code:
- `RegistrationsViewSet.list` fails on an unparseable `passesUpdatedSince`
  (the `except` branch reads an unbound `date`).
- In `parse_log`, the get-warning branch is never taken for a message without
  a line break: every such message its pattern matches is also matched by the
  get pattern tested before it.
- The two defects listed under "## Findings" are modelled both as written and
  corrected.

## Model

| member | source | states |
|---|---|---|
| Base.BaseName | django_walletpass/models.py:52 | `os.path.basename`: the part after the last `/`, which contains no `/` and is a suffix of the path |
| Models.TruncateToSecond | django_walletpass/views.py:31 | the whole-second time at or before `t` and less than a second before it |
| Models.EpochSeconds | django_walletpass/classviews.py:125 | `timegm(utctimetuple())`: the whole seconds `r` with `r` s ≤ `t` < `r+1` s (floor, also before 1970) |
| Models.NewLog | django_walletpass/models.py:325-337 | `Log(message=m)`: the message, created now, every nullable column NULL |
| Models.FindPass | django_walletpass/classviews.py:24-25 | `get_object_or_404`: the key of the pass with that type and serial, or None exactly when no pass has them |
| Models.RegistrationsFor | django_walletpass/classviews.py:76-79 | exactly the registrations of the device for the pass |
| Models.SurvivingRegistrationsExact | django_walletpass/models.py:238-245 | after a complete push, a registration survives iff it belongs to another pass or its push was not answered `410`, with its value unchanged |
| Models.SurvivingRegistrationsIdempotent | django_walletpass/models.py:238-245 | pushing again with the same answers deletes nothing more |
| Models.SurvivingTwoPushes | django_walletpass/models.py:238-245 | after two complete pushes of the pass, a registration survives iff it belongs to another pass or neither push answered `410` for it, value unchanged |
| Models.SubmapKeepsOneRegistration | django_walletpass/models.py:306-316 | deleting registrations keeps at most one registration per (device, pass) |
| Models.Database.AddRegistration | django_walletpass/classviews.py:83-88 | `Registration(...).save()`: one new key, the registration stored under it, nothing else changed |
| Models.Database.DeleteRegistrations | django_walletpass/classviews.py:102 | `registration.delete()`: exactly the given keys are gone |
| Models.Database.Emit | django_walletpass/classviews.py:89 | `Signal.send`: the event is appended to the event log |
| Models.Database.SaveLog | django_walletpass/models.py:402 | `log.save()`: the row is appended, nothing else changed |
| Models.Database.SavePass | django_walletpass/models.py:226-233 | `Pass.save()`: IntegrityError with nothing changed iff another row has the (type, serial); otherwise the row is stored under its key (a fresh key for a new pass) with `updated_at = now` |
| Models.Database.PushNotification | django_walletpass/models.py:238-245 | succeeds iff every push of the pass is answered, and then the table becomes `SurvivingRegistrations`; a push without an answer raises, which keeps a subset of the old table that still holds every survivor; passes, logs and events unchanged |
| Signals.SavePass | django_walletpass/signals.py:12-14 | save followed by the post_save push: rejected (nothing changed) iff the key clashes; PushUnanswered iff an existing pass saves and one of its pushes has no answer, with the row written and the registrations between the survivors and the old table (a new pass has no registrations, so it never fails there); on success the pass is stored with `updated_at = now` and the registrations are the survivors of its push |
| Signals.SendPushNotification | django_walletpass/signals.py:12-14 | the receiver pushes the saved pass: success iff every push is answered, survivors on success, a subset holding every survivor on failure |
| Signals.RegistrationsWithToken | django_walletpass/signals.py:25-27 | exactly the registrations with that push token |
| Signals.DeleteRegistration | django_walletpass/signals.py:17-30 | a non-GONE status changes nothing. On GONE: DoesNotExist iff no registration has the token, MultipleObjectsReturned iff several do (both with nothing changed); otherwise that one registration is deleted and PASS_UNREGISTERED is sent with its pass |
| Signing.Names | django_walletpass/crypto.py:13-17 | the set of declared parameter names |
| Signing.FirstUnexpected | django_walletpass/crypto.py:13-17 | None iff every keyword names a parameter; otherwise a keyword that names none |
| Signing.FirstMissing | django_walletpass/crypto.py:13-17 | None iff every parameter without a default is supplied; otherwise such a parameter, left unsupplied |
| Signing.BindKeywords | django_walletpass/crypto.py:13-17 | a keyword-only call binds iff all keywords are declared and all required parameters are supplied |
| Signing.SignAsWrittenAlwaysRaises | django_walletpass/models.py:108-114 | the builder's call raises TypeError on `certcontent` whatever the manifest |
| Signing.CorrectedUnexpected | django_walletpass/crypto.py:13-17 | the corrected keywords are all declared |
| Signing.CorrectedMissing | django_walletpass/crypto.py:13-17 | the corrected keywords supply every required parameter |
| Signing.SignCorrectedIsSign | django_walletpass/crypto.py:13-17 | with the declared keywords, the call's outcome is exactly the signer's |
| Bundle.Required.AsJson | django_walletpass/models.py:24-30 | the required fields become exactly the five JSON members |
| Bundle.PlainNameVisible | django_walletpass/models.py:51 | `glob('**')` lists a plain name that does not start with a dot |
| Bundle.ReservedNames | django_walletpass/models.py:94-116 | `pass.json`, `manifest.json` and `signature` are listed by glob, and `pass.json` is its own base name |
| Bundle.DsStoreIsHidden | django_walletpass/models.py:54-55 | every `.DS_Store` path is already skipped by glob |
| Bundle.MergePassData | django_walletpass/models.py:167-170 | `pass_data.update(pass_data_required)`: the keys are the union, the required values win, other values are kept |
| Bundle.MergeIdempotent | django_walletpass/models.py:167-170 | merging the required fields twice equals merging once |
| Bundle.Digests | django_walletpass/models.py:61 | one hex SHA-1 per staged file, same key set |
| Bundle.ManifestEntries | django_walletpass/models.py:45-96 | the manifest lists exactly the copied directory files, the extra files and `pass.json`, each with the digest of what was staged (extra files overriding directory files) |
| Bundle.PassDataOnlyTouchesPassJson | django_walletpass/models.py:85-96 | changing `pass_data` changes no manifest entry except `pass.json` |
| Bundle.SignedArchive | django_walletpass/models.py:98-126 | the archive holds the visible staged files, `manifest.json` and `signature` with their contents |
| Bundle.BuildOutcome | django_walletpass/models.py:143-186 | for an object `pass_data`: a build fails with ValidationError iff the object is empty, with SigningFailed iff the signer refuses the manifest bytes, and otherwise succeeds |
| Bundle.BuiltArchiveMatchesManifest | django_walletpass/models.py:172-186 | in a built archive, `signature` signs `manifest.json`, and every visible manifest path is in the archive with content whose SHA-1 is the manifest's digest |
| Bundle.LoadPassJson | django_walletpass/models.py:157-165 | whatever JSON value `json.loads` gives, object or not; PassJsonUnreadable iff it raises |
| Bundle.LoadedPassDataListed | django_walletpass/models.py:271-276 | when glob lists a file named `pass.json`, `pass_data` becomes the parse of the top-level `pass.json` |
| Bundle.LoadedPassDataUnlisted | django_walletpass/models.py:271-276 | with no listed `pass.json`, `pass_data` stays `{}` |
| Bundle.LoadedRequired | django_walletpass/models.py:283-289 | after get_pass_builder, type, serial and token are the pass's and team and URL the configuration's |
| Bundle.LoadedAssetAt | django_walletpass/models.py:256-282 | one path of a signed archive of round-trippable files reads back unchanged unless it is `pass.json` |
| Bundle.LoadedAssetsOfSigned | django_walletpass/models.py:256-282 | reading a signed archive back gives exactly its staged files minus `pass.json` |
| Bundle.LoadedAssetsOfBuild | django_walletpass/models.py:256-282 | get_pass_builder on a built archive stages exactly the build's staged files minus `pass.json` |
| Bundle.LoadedPassDataOfBuild | django_walletpass/models.py:256-290 | get_pass_builder on a built archive reads back the merged `pass_data` (when `loads` inverts `dumps`) |
| Bundle.BuiltPassJson | django_walletpass/models.py:85-96 | a successful build's archive holds `pass.json` with the serialised merged data |
| Bundle.SameTreeSameBuild | django_walletpass/models.py:172-186 | two builds that write the same tree give the same manifest and, in this model, the same archive |
| Bundle.RebuiltTree | django_walletpass/models.py:256-290 | rebuilding from the load-back writes the same tree as the original build |
| Bundle.RebuildReproducesManifest | django_walletpass/models.py:256-290 | build, get_pass_builder, build again: the same `pass_data`, the same required fields, the same tree and the same manifest (as a map), and in this model the same archive |
| Bundle.NestedPassJsonIsDropped | django_walletpass/models.py:272-276 | a nested file named `pass.json` (such as a localisation's) is lost on load-back |
| Builder.PassBuilder.constructor | django_walletpass/models.py:36-43 | fresh fields: empty data, no extra files, the configured type, team and URL with the given serial and token |
| Builder.PassBuilder.AddFile | django_walletpass/models.py:218-219 | the file is added or replaced at its path, nothing else changes |
| Builder.PassBuilder.LoadPassJsonFile | django_walletpass/models.py:157-165 | a missing file raises; otherwise `pass_data` becomes the parsed value, of any JSON type, iff it parses, else PassJsonUnreadable with nothing changed |
| Builder.PassBuilder.LoadPassJsonFileIfExists | django_walletpass/models.py:128-135 | reads `pass.json` only when it is a regular file at the top of the directory |
| Builder.PassBuilder.Validate | django_walletpass/models.py:143-150 | ValidationError iff `pass_data` is falsy (`None`, `False`, `0`, `""`, `[]`, `{}`) |
| Builder.PassBuilder.Clean | django_walletpass/models.py:137-155 | manifest and built content reset, then ValidationError iff `pass_data` is falsy |
| Builder.PassBuilder.CopyDirFiles | django_walletpass/models.py:45-67 | the temporary tree gains exactly `DirectoryFiles(directory)` and the manifest their digests |
| Builder.PassBuilder.WriteExtraFiles | django_walletpass/models.py:69-83 | the temporary tree gains exactly the extra files and the manifest their digests |
| Builder.PassBuilder.PreBuildPassData | django_walletpass/models.py:167-170 | AttributeError with nothing changed iff `pass_data` is not an object; otherwise it becomes the object `MergePassData(old, required)` |
| Builder.PassBuilder.WritePassJson | django_walletpass/models.py:85-96 | `pass.json` holds the serialised data and the manifest gets its digest |
| Builder.PassBuilder.WriteManifestJsonAndSignature | django_walletpass/models.py:98-116 | SigningFailed iff the signer refuses the manifest bytes; otherwise `manifest.json` holds them and `signature` is their signature |
| Builder.PassBuilder.ZipAll | django_walletpass/models.py:118-126 | the archive is every file glob lists in the temporary tree |
| Builder.PassBuilder.StageAll | django_walletpass/models.py:179-183 | after clean, staging writes exactly `PassTree` and the manifest `ManifestOf` of the builder's fields, with `pass_data` merged; a `pass_data` that is not an object raises AttributeError at the merge, with the directory and extra files already in the manifest |
| Bundle.BuildPassData | django_walletpass/models.py:143-186 | on any JSON `pass_data`: ValidationError iff it is falsy; AttributeError iff it is truthy and not an object; SigningFailed iff a non-empty object's manifest is refused by the signer; success only for an object, with the archive `PassBuild` gives |
| Builder.PassBuilder.Build | django_walletpass/models.py:172-186 | the result is `BuildPassData` of the builder's fields, the built content is the archive on success and None otherwise, and the manifest and `pass_data` are those of the step the build stopped at |
| Builder.PassBuilder.WriteToModel | django_walletpass/models.py:188-216 | ValueError with nothing saved when nothing was built. Otherwise the pass gets the configured type and the builder's serial and token, and the archive becomes its file, under its old base name or `<uuid>.pkpass`. Rejected iff the key clashes. When a file is replaced, the unlinking save's push (first answers) and the storing save's push (second answers) each run. A push without answer to an existing pass fails with the row as that save wrote it: without a file at the first save, with the new file at the second. The registrations then lie between the survivors of that push and the table it started from. On success the registrations are the survivors of the first push and then of the second. |
| Builder.SaveStoredFile | django_walletpass/models.py:213-214 | `instance.data.delete()` then `instance.data.save(...)`, each save with its own push answers. Rejected (nothing changed) iff the key clashes. If the first push of an existing pass has an unanswered registration, PushUnanswered with the row saved without a file. If only the second push does, PushUnanswered with the row holding the new file. Otherwise success: the new file and `updated_at = now` under the pass's key, and the registrations are the survivors of both pushes in turn. Without a file to replace only the second save runs. |
| Builder.UnlinkThenSave | django_walletpass/models.py:213-214 | the two saves when a file is replaced, with the same outcomes as Builder.SaveStoredFile for `replacing` |
| Builder.SaveWithFile | django_walletpass/models.py:214 | the storing save after a successful unlinking save: rejected iff the key clashes in the table before both saves; PushUnanswered iff its own push has an unanswered registration of an existing pass, with the row holding the new file; success leaves the survivors of both pushes |
| Builder.UnsavedPass | django_walletpass/models.py:198-199 | `Pass()` has no file |
| Builder.StoredName | django_walletpass/models.py:205-208 | exactly `os.path.basename` of the old file's name when it has one, else `freshName + ".pkpass"` |
| Builder.NewBuilder | django_walletpass/models.py:36-43 | `PassBuilder(directory)`: fails iff the directory's top-level `pass.json` does not parse; otherwise the data is that parse, of any JSON type (or `{}`), and the fields are fresh |
| Builder.NewPassBuilder | django_walletpass/models.py:247-254 | like NewBuilder, with type, serial and token taken from the pass |
| Builder.GetPassBuilder | django_walletpass/models.py:256-290 | no stored file (none, or one without a name) → failure. Otherwise: fails iff the load-back of `pass.json` fails; extra files = `LoadedAssets(archive)`; `pass_data` = `LoadedPassData`; required fields = the pass's |
| Listing.PassesOfDevice | django_walletpass/classviews.py:35-38 | exactly the passes of the type that have a registration on the device |
| Listing.UpdatedAfter | django_walletpass/classviews.py:47 | exactly those updated strictly after the date |
| Listing.ConsideredIds | django_walletpass/classviews.py:35-50 | the passes of the device and type, limited to those updated after `since` when one is given |
| Listing.LatestExists | django_walletpass/classviews.py:53 | a non-empty set has a pass with the latest update |
| Listing.LatestUpdate | django_walletpass/classviews.py:53 | `Max('updated_at')`: attained by some pass and not exceeded by any |
| Listing.Cohort | django_walletpass/classviews.py:54 | exactly the serials of the passes updated at that time |
| Listing.LatestCohortNonEmpty | django_walletpass/classviews.py:52-56 | the serials reported with `lastUpdated` are never empty |
| Listing.NothingAfterLatest | django_walletpass/classviews.py:47-53 | nothing is updated after the latest update |
| Listing.LatestAfterEarlierWatermark | django_walletpass/views.py:26-30 | a date before the latest update returns the same latest update and the same serials |
| Http.NotModified | django_walletpass/classviews.py:130 | the 304 keeps only the Last-Modified header |
| ClassViews.List | django_walletpass/classviews.py:34-58 | 400 iff the device has no pass of the type; an unparseable date fails. Otherwise exactly `{}` with 204 when no considered pass was updated after the date, and 200 when one was; 200 carries the latest update and its non-empty serials |
| ClassViews.ListWatermarkExcludesCohort | django_walletpass/classviews.py:42-58 | when dates round-trip, resending `lastUpdated` to an unchanged store gives 204 |
| ClassViews.AuthorizedPass | django_walletpass/classviews.py:71-75 | the pass's key iff it exists and the header is exactly `ApplePass <token>`; else 404 from `get_pass` (lines 24-25) with DRF's `{"detail": "Not found."}` body, or 401 with `{}` |
| ClassViews.Retrieve | django_walletpass/classviews.py:113-130 | 404/401 as get_pass and the token check. No file → failure. Redirect mode → 302 to the file URL. Otherwise the archive with its headers and Last-Modified, or a 304 on a fresh GET. |
| ClassViews.RetrieveNotModifiedExactly | django_walletpass/classviews.py:125-130 | when dates round-trip: 304 iff a GET's If-Modified-Since is a non-zero second not before the pass's non-zero update second |
| ClassViews.Create | django_walletpass/classviews.py:71-90 | 404/401 with nothing changed; 200 with nothing changed if registered; a bad body fails with nothing changed; else one registration with the token, PASS_REGISTERED and 201; keeps one registration per (device, pass) |
| Models.AddingUnregisteredKeepsOne | django_walletpass/classviews.py:76-90 | adding a registration for an unregistered (device, pass) keeps at most one per pair |
| ClassViews.Destroy | django_walletpass/classviews.py:92-104 | 404/401 with nothing changed; 200 with no event if unregistered; otherwise exactly that device's registrations for the pass go, PASS_UNREGISTERED, 200 |
| ClassViews.ParseLogBatch | django_walletpass/classviews.py:141-143 | each saved row is `parse_log` of its message in list order, up to the first message whose parsing raises |
| ClassViews.LogCreate | django_walletpass/classviews.py:140-144 | an unparseable body gives 400 with DRF's `{"detail": "JSON parse error - …"}` body and missing `logs` gives 200, both with nothing saved; otherwise the batch's rows are appended, 200 or (on an exception) 500 |
| ClassViews.Batch | django_walletpass/classviews.py:141-143 | the saved rows are the successful outcomes in order, up to the first failure, which is the one reported; no failure iff every outcome is saved |
| ClassViews.BatchStep | django_walletpass/classviews.py:141-143 | one more message extends the batch by its row, stops it with its failure, or changes nothing once it has stopped |
| ClassViews.BatchStopsFrom | django_walletpass/classviews.py:141-143 | after a message whose parsing raises, no later message is saved, whatever the later messages are |
| DeviceLog.Classify | django_walletpass/models.py:353-379 | the first of the four patterns that matches decides the branch, with its status (`error`, `warning`) and bound groups |
| DeviceLog.NormaliseStatusMeaning | django_walletpass/models.py:381-384 | `error` iff the status contains `error`; `warning` iff it contains `warning` and not `error`; else unchanged; idempotent |
| DeviceLog.PassesWithSerial | django_walletpass/models.py:397 | exactly the passes with that serial |
| DeviceLog.LinkBySerial | django_walletpass/models.py:395-400 | no pass → no link; one → that pass; several → MultipleObjectsReturned |
| DeviceLog.ParseLog | django_walletpass/models.py:345-402 | unmatched → `unknown` with the message; bad timestamp → failure; several passes with the captured serial → MultipleObjectsReturned; otherwise saved, with every column from the matched groups and the status normalised; the pass is linked iff exactly one has the non-empty captured serial, and the link is left as it was otherwise |
| DeviceLog.GetWarningBranchShadowed | django_walletpass/models.py:349-379 | when the get-warning pattern matches only what get matches, its branch is never taken |
| LegacyViews.FirstUnresolved | django_walletpass/views.py:20-21 | `filter()` resolving its keywords in order: None iff each names a field or reverse relation of Pass, else the first that names none: every keyword before it resolves |
| LegacyViews.RegistrationsAsWritten | django_walletpass/views.py:20-21 | a keyword that does not resolve gives FieldError, a 500; a filter that resolves answers as the intended view |
| LegacyViews.LegacyLookupUnresolved | django_walletpass/models.py:306-316 | `registration` is neither a field of Pass nor the `related_name` (`registrations`) that `Registration.pazz` declares, so the filter as written fails on it |
| LegacyViews.CorrectedLookupResolves | django_walletpass/models.py:306-316 | through `registrations` both keywords of the filter resolve |
| LegacyViews.Registrations | django_walletpass/views.py:16-33 | 404 iff the device has no pass of the type; a date not in the strict form fails. Otherwise an empty 204 when no considered pass was updated after the date, and 200 when one was; 200 carries the latest update in the strict form, its non-empty serials and the JSON content type |
| LegacyViews.RegistrationsAsWrittenNeverLists | django_walletpass/views.py:20-21 | as written, a 500 for every device, type and date; the corrected filter resolves, and for a device with passes and no date or a strict-form date it answers 200 or 204 |
| LegacyViews.RegistrationsWatermark | django_walletpass/views.py:11-31 | resending `lastUpdated` gives 204 iff the latest update is a whole second; otherwise exactly the same response again |
| LegacyViews.TimestampSeconds | django_walletpass/views.py:70 | `int(dt.timestamp())`: seconds truncated toward zero |
| LegacyViews.TimestampSecondsAgreeAfterEpoch | django_walletpass/views.py:66-70 | from 1970 on it equals the timegm second of classviews.py; before 1970 it is one more for a time that is not a whole second |
| LegacyViews.LastModified | django_walletpass/views.py:66-70 | the last-modified second, absent when zero |
| LegacyViews.LatestVersion | django_walletpass/views.py:66-82 | 404 first. A fresh GET/HEAD gets 304 before the token check. Then 401, a failure with no file, or the archive. Last-Modified is added on GET/HEAD when non-zero. |
| LegacyViews.LatestVersionFreshnessBeforeAuth | django_walletpass/views.py:70-78 | the 304 does not depend on the Authorization header; a 200 only goes to the right token |
| LegacyViews.LatestVersionNotModifiedExactly | django_walletpass/views.py:70 | when dates round-trip: 304 iff a GET/HEAD's If-Modified-Since is a non-zero second not before the pass's non-zero timestamp |
| LegacyViews.RegisterPass | django_walletpass/views.py:36-63 | 404/401 with nothing changed. POST as create (PASS_REGISTERED). DELETE removes that device's registrations and always emits PASS_UNREGISTERED, 200. Any other method: 400. Keeps one registration per (device, pass). |
| LegacyViews.RawLogs | django_walletpass/views.py:91-92 | one raw `Log(message=m)` per message, in order |
| LegacyViews.LogMessages | django_walletpass/views.py:85-93 | an unparseable body or missing `logs` fails with nothing saved; otherwise the raw rows are appended, 200 |

## Left out

- The class-level dictionaries of `PassBuilder` (django_walletpass/models.py:23-33) are shared by all instances. The model gives each builder its own fields, so it does not capture one builder's data showing up in another.
- The file system is not modelled. Directories and temporary directories are maps from relative path to content.
  - `os.makedirs`, `relpath` and symbolic links are not modelled.
  - The zip encoding and compression are not modelled. The directory entries `zipfile` writes for sub-directories are not modelled: an archive is a map from path to bytes.
  - Path safety of `extractall` is not modelled.
- SHA-1, JSON, PKCS#7 signing (the PEM/DER output of crypto.py), the APNs transport and the regular expressions are function parameters and are not looked into.
  - Builder.PassBuilder.WriteManifestJsonAndSignature: signs through the signer parameter directly, which is the corrected call of the Findings row. The call as written is modelled in Signing.
- Random serial numbers and tokens (`secrets.token_urlsafe`, `crypto.gen_random_token`, which crypto.py does not define) and the `uuid1` file name are parameters. So is the clock (one reading per save or request).
- Storage: `upload_to` and the storage backend's renaming of clashing names are not modelled. The stored name is the name write_to_model passes.
- Models.Database.PushNotification: the order in which registrations are pushed is left open. On a push without an answer, the contract states only that the remaining table lies between the survivors and the old table.
- Signals.SavePass: on a push failure, the contract describes the partial state in the same way, not exactly.
- Who sends `TOKEN_UNREGISTERED` (the push backend's error callback) and when is not modelled. Signals.DeleteRegistration models the receiver only.
- Conditional requests: only If-Modified-Since is modelled. ETag, If-None-Match, If-Match and If-Unmodified-Since are not.
- Serial-number lists are modelled as sets: their order and repetitions are left out.
- LegacyViews.TimestampSeconds: does not model the float rounding of `datetime.timestamp()` for far-off dates.
- DRF's error detail texts depend on the installed DRF version. The model uses NotFound's default `Not found.`; newer versions may pass on the Http404's own message instead. The decoder's part of a JSON parse error is the `reason` of `Http.LogBodyUnparseable`.
- A `pushToken` that is not a string, a `logs` value that is not a list of strings, and DRF content negotiation are not modelled. A request body is one of the decoded cases of `Http.RegistrationBody` and `Http.LogBody`.
- Builder.PassBuilder.WriteToModel: when nothing was built, the instance's fields are set in memory before ValueError, but nothing is saved. The model shows only the unchanged database.
- Concurrency and races between requests are not modelled.
- Bundle.SameTreeSameBuild: the same archive is a property of the model only. `dumps` is a function of the JSON value, while `json.dumps` writes an object's keys in insertion order: directory glob order, then `add_file` order, then `pass.json` (django_walletpass/models.py:51-61, 77, 94). And `sign` is a function of the bytes, while `PKCS7_sign` also records a signing time (django_walletpass/crypto.py:54-60). In the source only the tree and the manifest as a map are guaranteed equal.
- Bundle.RebuildReproducesManifest: the same archive holds in the model only, for the reasons given for Bundle.SameTreeSameBuild. A rebuild inserts the manifest keys in the glob order of the extracted archive (django_walletpass/models.py:271-282), so `manifest.json`'s bytes and the signature may differ. The tree and the manifest as a map are the same, which is what the tests compare.
- Builder.SaveStoredFile: when no file is replaced only the second push's answers are read; the first are unused. The storage backend is not modelled apart from the row. `FieldFile.delete()` deletes the stored blob before its save, so after a rejected first save the real row still names a file that is gone. In the model the row keeps its old `StoredFile`.
- Builder.PassBuilder.WriteToModel: the same gap as Builder.SaveStoredFile for the old file's blob.
- Base.Json: JSON numbers are integers. The floats `json.loads` can return are not represented, so `LoadsInvertsDumps` is a hypothesis over this narrower type only.
- `django_passbook`, services.py, admin.py, urls.py, settings.py and the tests are not part of this model.
- The legacy `registrations` view builds its 200 response with `mimetype=` (django_walletpass/views.py:32), a keyword current Django rejects. That line is reached only once the lookup of the second Findings row is corrected, so LegacyViews.Registrations uses `content_type` there.

## Findings

| source | as written | input that shows it | evidently intended | confidence | as-written member | corrected member |
|---|---|---|---|---|---|---|
| django_walletpass/models.py:108-114 | `pkcs7_sign` is called with `certcontent`, `keycontent`, `key_password`, but it declares `p12_certificate`, `wwdr_certificate`, `data`, `certificate_password` (django_walletpass/crypto.py:13-17) | any `build()` with non-empty pass data: TypeError on `certcontent` | pass the `.p12` content and its password under the declared names, and the DER intermediate certificate `WWDRCA_CONTENT` (django_walletpass/settings.py:11, 24) rather than `WWDRCA_PEM_CONTENT`, since crypto.py:38 reads it with `load_der_x509_certificate` | high; not executed | Signing.SignAsWrittenAlwaysRaises | Signing.SignCorrectedIsSign |
| django_walletpass/views.py:20-21 | filters on `registration__device_library_identifier`, while `Registration.pazz` declares `related_name='registrations'` | any GET of the legacy registrations view: FieldError, 500 | filter through `registrations__`, as classviews.py:35-38 does | high; not executed | LegacyViews.RegistrationsAsWrittenNeverLists | LegacyViews.Registrations |
