/** PassBuilder (django_walletpass/models.py) as an object whose methods
    update its fields, and the three Pass methods that make builders.
    The temporary build directory is a local file tree threaded through
    the staging steps; each method is proved against the functions of
    module Bundle. */
module Builder {
  import opened Base
  import opened Models
  import opened Bundle
  import Signals

  class PassBuilder {
    /** pass.json's content before the required fields are merged in:
        whatever JSON value it holds, an object when it can be built. */
    var passData: Json
    var passDataRequired: Required
    /** The source directory, None when the builder has none. */
    var directory: Option<Directory>
    /** Files added with add_file, by relative path. */
    var extraFiles: Tree
    var manifestDict: Manifest
    /** The archive of the last successful build, None before one. */
    var buildedPassContent: Option<Tree>

    /** The fields __init__ sets, before pass.json is read: pass_data is
        empty, the required fields come from configuration except the
        serial (secrets.token_urlsafe(20)) and the token
        (crypto.gen_random_token()), given here. */
    constructor (conf: Config, dir: Option<Directory>, serial: string, token: string)
      ensures passData == JObject(map[]) && directory == dir && extraFiles == map[]
      ensures passDataRequired == Required(conf.passTypeId, serial, conf.teamId, conf.serviceUrl, token)
      ensures manifestDict == map[] && buildedPassContent == None
    {
      passData := JObject(map[]);
      passDataRequired := Required(conf.passTypeId, serial, conf.teamId, conf.serviceUrl, token);
      directory := dir;
      extraFiles := map[];
      manifestDict := map[];
      buildedPassContent := None;
    }

    /** add_file: a later file at the same path replaces an earlier one. */
    method AddFile(path: string, content: Bytes)
      modifies this
      ensures extraFiles == old(extraFiles)[path := content]
      ensures passData == old(passData) && passDataRequired == old(passDataRequired) && directory == old(directory)
      ensures manifestDict == old(manifestDict) && buildedPassContent == old(buildedPassContent)
    {
      extraFiles := extraFiles[path := content];
    }

    /** load_pass_json_file: reads `passJson`, the directory's pass.json
        (None when there is none, and open raises), into pass_data. */
    method LoadPassJsonFile(p: Primitives, passJson: Option<Bytes>) returns (r: Result<(), BuildError>)
      modifies this
      ensures passJson.None? ==> r == Failure(PassJsonMissing)
      ensures passJson.Some? ==> (r.Success? <==> LoadPassJson(p, passJson.value).Success?)
      ensures passJson.Some? && r.Failure? ==> r.error == PassJsonUnreadable
      ensures r.Success? ==> passData == LoadPassJson(p, passJson.value).value
      ensures r.Failure? ==> passData == old(passData)
      ensures passDataRequired == old(passDataRequired) && directory == old(directory) && extraFiles == old(extraFiles)
      ensures manifestDict == old(manifestDict) && buildedPassContent == old(buildedPassContent)
    {
      if passJson.None? {
        return Failure(PassJsonMissing);
      }
      var loaded := LoadPassJson(p, passJson.value);
      if loaded.Failure? {
        return Failure(loaded.error);
      }
      passData := loaded.value;
      r := Success(());
    }

    /** _load_pass_json_file_if_exists: reads pass.json only when it is a
        regular file at the top of the directory. */
    method LoadPassJsonFileIfExists(p: Primitives, dir: Directory) returns (r: Result<(), BuildError>)
      modifies this
      ensures PathIsFile(dir, PASS_JSON) ==>
        (r.Success? <==> LoadPassJson(p, dir[PASS_JSON].content).Success?) &&
        (r.Success? ==> passData == LoadPassJson(p, dir[PASS_JSON].content).value)
      ensures !PathIsFile(dir, PASS_JSON) ==> r == Success(())
      ensures r.Failure? ==> r.error == PassJsonUnreadable
      ensures r.Failure? || !PathIsFile(dir, PASS_JSON) ==> passData == old(passData)
      ensures passDataRequired == old(passDataRequired) && directory == old(directory) && extraFiles == old(extraFiles)
      ensures manifestDict == old(manifestDict) && buildedPassContent == old(buildedPassContent)
    {
      r := Success(());
      if PASS_JSON in dir && dir[PASS_JSON].RegularFile? {
        r := LoadPassJsonFile(p, Some(dir[PASS_JSON].content));
      }
    }

    /** validate: only the truthiness of pass_data is checked. */
    method Validate() returns (r: Result<(), BuildError>)
      ensures r.Failure? <==> Falsy(passData)
      ensures r.Failure? ==> r.error == ValidationError
    {
      if Falsy(passData) {
        return Failure(ValidationError);
      }
      r := Success(());
    }

    /** clean: the manifest and the built content are reset before the
        validation, so a failed validation leaves both empty. */
    method Clean() returns (r: Result<(), BuildError>)
      modifies this
      ensures manifestDict == map[] && buildedPassContent == None
      ensures r.Failure? <==> Falsy(passData)
      ensures r.Failure? ==> r.error == ValidationError
      ensures passData == old(passData) && passDataRequired == old(passDataRequired)
      ensures directory == old(directory) && extraFiles == old(extraFiles)
    {
      manifestDict := map[];
      buildedPassContent := None;
      r := Validate();
    }

    /** _copy_dir_files: every path glob lists that is a regular file and
        not named .DS_Store is digested into the manifest and copied into
        the temporary directory. */
    method CopyDirFiles(p: Primitives, tmp: Tree) returns (out: Tree)
      requires directory.Some?
      modifies this
      ensures passData == old(passData) && passDataRequired == old(passDataRequired) && directory == old(directory)
      ensures extraFiles == old(extraFiles) && buildedPassContent == old(buildedPassContent)
      ensures out == tmp + DirectoryFiles(directory.value)
      ensures manifestDict == old(manifestDict) + Digests(p, DirectoryFiles(directory.value))
    {
      var d := directory.value;
      var todo := set path | path in d && !Hidden(path);
      ghost var listed := todo;
      ghost var done: set<string> := {};
      ghost var staged: Tree := map[];
      out := tmp;
      while todo != {}
        invariant todo + done == listed && todo !! done
        invariant forall path :: path in staged <==> path in done && StagedFromDirectory(d, path)
        invariant forall path :: path in staged ==> StagedFromDirectory(d, path) && staged[path] == d[path].content
        invariant out == tmp + staged
        invariant manifestDict == old(manifestDict) + Digests(p, staged)
        invariant passData == old(passData) && passDataRequired == old(passDataRequired) && directory == old(directory)
        invariant extraFiles == old(extraFiles) && buildedPassContent == old(buildedPassContent)
        decreases todo
      {
        var path :| path in todo;
        // .DS_Store is skipped by name, a sub-directory has nothing to copy
        if BaseName(path) != DS_STORE && d[path].RegularFile? {
          var content := d[path].content;
          StageOneMore(p, tmp, old(manifestDict), staged, path, content);
          manifestDict := manifestDict[path := p.sha1Hex(content)];
          out := out[path := content];
          staged := staged[path := content];
        }
        todo := todo - {path};
        done := done + {path};
      }
      StagedAllOfDirectory(d, staged, done);
    }

    /** _write_extra_files: every extra file is digested into the manifest
        and written into the temporary directory, replacing a directory
        file at the same path. */
    method WriteExtraFiles(p: Primitives, tmp: Tree) returns (out: Tree)
      modifies this
      ensures passData == old(passData) && passDataRequired == old(passDataRequired) && directory == old(directory)
      ensures extraFiles == old(extraFiles) && buildedPassContent == old(buildedPassContent)
      ensures out == tmp + extraFiles
      ensures manifestDict == old(manifestDict) + Digests(p, extraFiles)
    {
      var files := extraFiles;
      var todo := files.Keys;
      ghost var done: set<string> := {};
      ghost var staged: Tree := map[];
      out := tmp;
      while todo != {}
        invariant todo + done == files.Keys && todo !! done
        invariant forall path :: path in staged <==> path in done
        invariant forall path :: path in staged ==> path in files && staged[path] == files[path]
        invariant out == tmp + staged
        invariant manifestDict == old(manifestDict) + Digests(p, staged)
        invariant passData == old(passData) && passDataRequired == old(passDataRequired) && directory == old(directory)
        invariant extraFiles == old(extraFiles) && buildedPassContent == old(buildedPassContent)
        decreases todo
      {
        var path :| path in todo;
        var content := files[path];
        StageOneMore(p, tmp, old(manifestDict), staged, path, content);
        manifestDict := manifestDict[path := p.sha1Hex(content)];
        out := out[path := content];
        staged := staged[path := content];
        todo := todo - {path};
        done := done + {path};
      }
      assert staged == files;
    }

    /** pre_build_pass_data: the required fields overwrite pass_data's;
        dict.update raises AttributeError when pass_data is no object. */
    method PreBuildPassData() returns (r: Result<(), BuildError>)
      modifies this
      ensures r.Failure? <==> !old(passData).JObject?
      ensures r.Failure? ==> r.error == PassDataNotDict && passData == old(passData)
      ensures r.Success? ==> passData == JObject(MergePassData(old(passData).fields, passDataRequired))
      ensures passDataRequired == old(passDataRequired) && directory == old(directory) && extraFiles == old(extraFiles)
      ensures manifestDict == old(manifestDict) && buildedPassContent == old(buildedPassContent)
    {
      if !passData.JObject? {
        return Failure(PassDataNotDict);
      }
      passData := JObject(passData.fields + passDataRequired.AsJson());
      r := Success(());
    }

    /** _write_pass_json: pass.json holds the serialised pass_data, and its
        digest is the manifest's pass.json entry. */
    method WritePassJson(p: Primitives, tmp: Tree) returns (out: Tree)
      modifies this
      ensures out == tmp[PASS_JSON := p.dumps(passData)]
      ensures manifestDict == old(manifestDict)[PASS_JSON := p.sha1Hex(p.dumps(passData))]
      ensures passData == old(passData) && passDataRequired == old(passDataRequired) && directory == old(directory)
      ensures extraFiles == old(extraFiles) && buildedPassContent == old(buildedPassContent)
    {
      var passJsonBytes := p.dumps(passData);
      manifestDict := manifestDict[PASS_JSON := p.sha1Hex(passJsonBytes)];
      out := tmp[PASS_JSON := passJsonBytes];
    }

    /** _write_manifest_json_and_signature: manifest.json holds the
        serialised manifest, and the signature file holds the signature of
        exactly those bytes; the signer's failure is the build's. */
    method WriteManifestJsonAndSignature(p: Primitives, tmp: Tree) returns (r: Result<Tree, BuildError>)
      ensures r.Failure? <==> p.sign(ManifestBytes(p, manifestDict)).None?
      ensures r.Failure? ==> r.error == SigningFailed
      ensures r.Success? ==>
        r.value == tmp[MANIFEST_JSON := ManifestBytes(p, manifestDict)][SIGNATURE := p.sign(ManifestBytes(p, manifestDict)).value]
      ensures r.Success? ==> p.sign(r.value[MANIFEST_JSON]) == Some(r.value[SIGNATURE])
    {
      var manifestJsonBytes := p.dumps(ManifestJson(manifestDict));
      var written := tmp[MANIFEST_JSON := manifestJsonBytes];
      var signature := p.sign(manifestJsonBytes);
      if signature.None? {
        return Failure(SigningFailed);
      }
      r := Success(written[SIGNATURE := signature.value]);
    }

    /** _zip_all: every path glob lists in the temporary directory goes
        into the archive under its relative path. */
    static method ZipAll(tmp: Tree) returns (archive: Tree)
      ensures archive == Zip(tmp)
    {
      var todo := set path | path in tmp && !Hidden(path);
      ghost var listed := todo;
      archive := map[];
      while todo != {}
        invariant todo <= listed && listed == set path | path in tmp && !Hidden(path)
        invariant forall path :: path in archive <==> path in listed && path !in todo
        invariant forall path :: path in archive ==> path in tmp && archive[path] == tmp[path]
        decreases todo
      {
        var path :| path in todo;
        archive := archive[path := tmp[path]];
        todo := todo - {path};
      }
      assert archive == Zip(tmp);
    }

    /** build: the fixed sequence clean, stage the directory, stage the
        extra files, merge the required fields, write pass.json, write
        manifest.json and the signature, zip. The archive is returned and
        kept. A failed validation changes nothing but the reset fields; a
        pass_data that is not an object fails at the merge, with the
        files already in the manifest. */
    method Build(p: Primitives) returns (r: Result<Tree, BuildError>)
      modifies this
      ensures r == BuildPassData(p, old(directory), old(extraFiles), old(passData), old(passDataRequired))
      ensures buildedPassContent == (if r.Success? then Some(r.value) else None)
      ensures directory == old(directory) && extraFiles == old(extraFiles) && passDataRequired == old(passDataRequired)
      ensures Falsy(old(passData)) ==> passData == old(passData) && manifestDict == map[]
      ensures !Falsy(old(passData)) && !old(passData).JObject? ==>
        passData == old(passData) && manifestDict == Digests(p, StagedFiles(directory, extraFiles))
      ensures !Falsy(old(passData)) && old(passData).JObject? ==>
        passData == JObject(MergePassData(old(passData).fields, passDataRequired)) &&
        manifestDict == ManifestOf(p, directory, extraFiles, old(passData).fields, passDataRequired)
    {
      var cleaned := Clean();
      if cleaned.Failure? {
        return Failure(cleaned.error);
      }
      var staged := StageAll(p);
      if staged.Failure? {
        return Failure(staged.error);
      }
      var tmp := staged.value;
      BuildOfTree(p, directory, extraFiles, old(passData).fields, passDataRequired);
      var signed := WriteManifestJsonAndSignature(p, tmp);
      if signed.Failure? {
        return Failure(signed.error);
      }
      var archive := ZipAll(signed.value);
      buildedPassContent := Some(archive);
      r := Success(archive);
    }

    /** The staging steps of build after clean, in order: the directory's
        files, the extra files, the merge of the required fields and
        pass.json, into an empty temporary directory and manifest. */
    method StageAll(p: Primitives) returns (r: Result<Tree, BuildError>)
      requires manifestDict == map[] && buildedPassContent == None
      modifies this
      ensures r.Failure? <==> !old(passData).JObject?
      ensures r.Failure? ==>
        r.error == PassDataNotDict && passData == old(passData) &&
        manifestDict == Digests(p, StagedFiles(directory, extraFiles))
      ensures r.Success? ==>
        r.value == PassTree(p, directory, extraFiles, old(passData).fields, passDataRequired) &&
        manifestDict == ManifestOf(p, directory, extraFiles, old(passData).fields, passDataRequired) &&
        passData == JObject(MergePassData(old(passData).fields, passDataRequired))
      ensures directory == old(directory) && extraFiles == old(extraFiles) && passDataRequired == old(passDataRequired)
      ensures buildedPassContent == None
    {
      ghost var dirFiles: Tree := if directory.Some? then DirectoryFiles(directory.value) else map[];
      var tmp := map[];
      if directory.Some? {
        tmp := CopyDirFiles(p, tmp);
        EmptyUnion(dirFiles);
        EmptyUnion(Digests(p, dirFiles));
      } else {
        assert Digests(p, dirFiles) == map[];
      }
      assert tmp == dirFiles && manifestDict == Digests(p, dirFiles);
      tmp := WriteExtraFiles(p, tmp);
      var merged := PreBuildPassData();
      if merged.Failure? {
        DigestsOfUnion(p, dirFiles, extraFiles);
        return Failure(merged.error);
      }
      tmp := WritePassJson(p, tmp);
      StagingSteps(p, directory, extraFiles, old(passData).fields, passDataRequired, dirFiles);
      r := Success(tmp);
    }

    /** write_to_model: the pass gets the configured type and the builder's
        serial and token, and the built archive replaces its file, under
        the old file's base name or a fresh "<uuid>.pkpass" name. Without
        a build, ValueError is raised before anything is saved. Replacing
        an existing file first saves the pass without it (FieldFile.delete,
        whose post_save push `push1` answers) and then with the new one
        (FieldFile.save, whose push `push2` answers). */
    method WriteToModel(
      db: Database, conf: Config, target: Option<nat>, freshName: string, now: Instant,
      push1: Registration -> Option<string>, push2: Registration -> Option<string>)
      returns (r: Result<nat, WriteError>)
      requires db.Valid()
      requires target.Some? ==> target.value in db.passes
      modifies db
      ensures db.Valid()
      ensures db.logs == old(db.logs) && db.events == old(db.events)
      ensures buildedPassContent.None? ==>
        r == Failure(NotBuilt) && db.passes == old(db.passes) && db.registrations == old(db.registrations)
      ensures buildedPassContent.Some? ==>
        (r == Failure(SaveFailed(Signals.SaveRejected)) <==>
           Clashes(old(db.passes), target, conf.passTypeId, passDataRequired.serialNumber))
      ensures r == Failure(SaveFailed(Signals.SaveRejected)) ==>
        db.passes == old(db.passes) && db.registrations == old(db.registrations)
      ensures r.Success? ==>
        var original := if target.Some? then old(db.passes)[target.value] else UnsavedPass();
        buildedPassContent.Some? &&
        (target.Some? ==> r.value == target.value) && (target.None? ==> r.value !in old(db.passes)) &&
        db.passes == old(db.passes)[r.value := Pass(
          conf.passTypeId, passDataRequired.serialNumber, passDataRequired.authenticationToken,
          Some(StoredFile(StoredName(original, freshName), buildedPassContent.value)), now)] &&
        db.registrations ==
          SurvivingRegistrations(AfterUnlink(old(db.registrations), r.value, HasStoredFile(original), push1), r.value, push2)
      // The unlinking save meets a push without response: the row is left without a file.
      ensures (buildedPassContent.Some? && target.Some? &&
               !Clashes(old(db.passes), target, conf.passTypeId, passDataRequired.serialNumber) &&
               HasStoredFile(old(db.passes)[target.value]) &&
               !AllAnswered(old(db.registrations), target.value, push1)) ==>
        var original := old(db.passes)[target.value];
        r == Failure(SaveFailed(Signals.PushUnanswered)) &&
        db.passes == old(db.passes)[target.value := Pass(
          conf.passTypeId, passDataRequired.serialNumber, passDataRequired.authenticationToken, None, now)] &&
        PushedPartly(old(db.registrations), db.registrations, target.value, push1)
      // The save with the new file meets a push without response: the row holds the new file.
      ensures (buildedPassContent.Some? && target.Some? &&
               !Clashes(old(db.passes), target, conf.passTypeId, passDataRequired.serialNumber) &&
               var original := old(db.passes)[target.value];
               (HasStoredFile(original) ==> AllAnswered(old(db.registrations), target.value, push1)) &&
               !AllAnswered(AfterUnlink(old(db.registrations), target.value, HasStoredFile(original), push1),
                            target.value, push2)) ==>
        var original := old(db.passes)[target.value];
        var afterUnlink := AfterUnlink(old(db.registrations), target.value, HasStoredFile(original), push1);
        r == Failure(SaveFailed(Signals.PushUnanswered)) &&
        db.passes == old(db.passes)[target.value := Pass(
          conf.passTypeId, passDataRequired.serialNumber, passDataRequired.authenticationToken,
          Some(StoredFile(StoredName(original, freshName), buildedPassContent.value)), now)] &&
        PushedPartly(afterUnlink, db.registrations, target.value, push2)
      ensures r == Failure(SaveFailed(Signals.PushUnanswered)) ==>
        target.Some? && buildedPassContent.Some? &&
        var original := old(db.passes)[target.value];
        ((HasStoredFile(original) && !AllAnswered(old(db.registrations), target.value, push1)) ||
         !AllAnswered(AfterUnlink(old(db.registrations), target.value, HasStoredFile(original), push1),
                      target.value, push2))
    {
      var original := if target.Some? then db.passes[target.value] else UnsavedPass();
      var instance := original.(
        passTypeIdentifier := conf.passTypeId,
        serialNumber := passDataRequired.serialNumber,
        authenticationToken := passDataRequired.authenticationToken);
      var filename := StoredName(original, freshName);
      if buildedPassContent.None? {
        return Failure(NotBuilt);
      }
      var saved := SaveStoredFile(db, target, instance, StoredFile(filename, buildedPassContent.value),
                                  HasStoredFile(original), now, push1, push2);
      if saved.Failure? {
        return Failure(SaveFailed(saved.error));
      }
      r := Success(saved.value);
    }
  }

  /** The saves of write_to_model: when `replacing`, FieldFile.delete
      first saves the pass without a file, and its post_save push is
      answered by `push1`; FieldFile.save then saves it with `file`, and
      that push is answered by `push2`. Without a file to replace only the
      second save runs. Either save may end the sequence. */
  method SaveStoredFile(
    db: Database, id: Option<nat>, instance: Pass, file: StoredFile, replacing: bool, now: Instant,
    push1: Registration -> Option<string>, push2: Registration -> Option<string>)
    returns (r: Result<nat, Signals.SaveFailure>)
    requires db.Valid()
    requires id.Some? ==> id.value in db.passes
    modifies db
    ensures db.Valid()
    ensures db.logs == old(db.logs) && db.events == old(db.events)
    ensures r == Failure(Signals.SaveRejected) <==>
      Clashes(old(db.passes), id, instance.passTypeIdentifier, instance.serialNumber)
    ensures r == Failure(Signals.SaveRejected) ==> db.passes == old(db.passes) && db.registrations == old(db.registrations)
    ensures r.Success? ==>
      (id.Some? ==> r.value == id.value) && (id.None? ==> r.value !in old(db.passes)) &&
      db.passes == old(db.passes)[r.value := instance.(data := Some(file), updatedAt := now)] &&
      db.registrations == SurvivingRegistrations(
        AfterUnlink(old(db.registrations), r.value, replacing, push1), r.value, push2)
    // The first save meets a push without response: a replaced file is then unlinked.
    ensures (id.Some? && !Clashes(old(db.passes), id, instance.passTypeIdentifier, instance.serialNumber) &&
             replacing && !AllAnswered(old(db.registrations), id.value, push1)) ==>
      r == Failure(Signals.PushUnanswered) &&
      db.passes == old(db.passes)[id.value := instance.(data := None, updatedAt := now)] &&
      PushedPartly(old(db.registrations), db.registrations, id.value, push1)
    // The save with the file meets a push without response: the row holds the new file.
    ensures (id.Some? && !Clashes(old(db.passes), id, instance.passTypeIdentifier, instance.serialNumber) &&
             (replacing ==> AllAnswered(old(db.registrations), id.value, push1)) &&
             !AllAnswered(AfterUnlink(old(db.registrations), id.value, replacing, push1), id.value, push2)) ==>
      r == Failure(Signals.PushUnanswered) &&
      db.passes == old(db.passes)[id.value := instance.(data := Some(file), updatedAt := now)] &&
      PushedPartly(AfterUnlink(old(db.registrations), id.value, replacing, push1), db.registrations, id.value, push2)
    // A new pass has no registrations, so only an update can meet a push without response.
    ensures r == Failure(Signals.PushUnanswered) ==>
      id.Some? &&
      ((replacing && !AllAnswered(old(db.registrations), id.value, push1)) ||
       !AllAnswered(AfterUnlink(old(db.registrations), id.value, replacing, push1), id.value, push2))
  {
    if !replacing {
      r := Signals.SavePass(db, id, instance.(data := Some(file)), now, push2);
      return;
    }
    r := UnlinkThenSave(db, id, instance, file, now, push1, push2);
  }

  /** The two saves of write_to_model when a file is replaced:
      FieldFile.delete saves the pass without a file (push answered by
      `push1`), then FieldFile.save saves it with `file` (push answered by
      `push2`). */
  method UnlinkThenSave(
    db: Database, id: Option<nat>, instance: Pass, file: StoredFile, now: Instant,
    push1: Registration -> Option<string>, push2: Registration -> Option<string>)
    returns (r: Result<nat, Signals.SaveFailure>)
    requires db.Valid()
    requires id.Some? ==> id.value in db.passes
    modifies db
    ensures db.Valid()
    ensures db.logs == old(db.logs) && db.events == old(db.events)
    ensures r == Failure(Signals.SaveRejected) <==>
      Clashes(old(db.passes), id, instance.passTypeIdentifier, instance.serialNumber)
    ensures r == Failure(Signals.SaveRejected) ==> db.passes == old(db.passes) && db.registrations == old(db.registrations)
    ensures r.Success? ==>
      (id.Some? ==> r.value == id.value) && (id.None? ==> r.value !in old(db.passes)) &&
      db.passes == old(db.passes)[r.value := instance.(data := Some(file), updatedAt := now)] &&
      db.registrations ==
        SurvivingRegistrations(SurvivingRegistrations(old(db.registrations), r.value, push1), r.value, push2)
    ensures (id.Some? && !Clashes(old(db.passes), id, instance.passTypeIdentifier, instance.serialNumber) &&
             !AllAnswered(old(db.registrations), id.value, push1)) ==>
      r == Failure(Signals.PushUnanswered) &&
      db.passes == old(db.passes)[id.value := instance.(data := None, updatedAt := now)] &&
      PushedPartly(old(db.registrations), db.registrations, id.value, push1)
    ensures (id.Some? && !Clashes(old(db.passes), id, instance.passTypeIdentifier, instance.serialNumber) &&
             AllAnswered(old(db.registrations), id.value, push1) &&
             !AllAnswered(SurvivingRegistrations(old(db.registrations), id.value, push1), id.value, push2)) ==>
      r == Failure(Signals.PushUnanswered) &&
      db.passes == old(db.passes)[id.value := instance.(data := Some(file), updatedAt := now)] &&
      PushedPartly(SurvivingRegistrations(old(db.registrations), id.value, push1), db.registrations, id.value, push2)
    ensures r == Failure(Signals.PushUnanswered) ==>
      id.Some? &&
      (!AllAnswered(old(db.registrations), id.value, push1) ||
       !AllAnswered(SurvivingRegistrations(old(db.registrations), id.value, push1), id.value, push2))
  {
    ghost var regs0 := db.registrations;
    var deleted := Signals.SavePass(db, id, instance.(data := None), now, push1);
    if deleted.Failure? {
      assert instance.(data := None).(updatedAt := now) == instance.(data := None, updatedAt := now);
      assert deleted.error == Signals.PushUnanswered ==> !AllAnswered(regs0, id.value, push1);
      return Failure(deleted.error);
    }
    r := SaveWithFile(db, id, deleted.value, instance, file, now, push1, push2, old(db.passes), regs0);
  }

  /** FieldFile.save after FieldFile.delete has saved the pass `key`
      without a file, starting from `passes0` and `regs0`, and every push
      of that save was answered by `push1`. */
  method SaveWithFile(
    db: Database, id: Option<nat>, key: nat, instance: Pass, file: StoredFile, now: Instant,
    push1: Registration -> Option<string>, push2: Registration -> Option<string>,
    ghost passes0: map<nat, Pass>, ghost regs0: map<nat, Registration>)
    returns (r: Result<nat, Signals.SaveFailure>)
    requires db.Valid()
    requires id.Some? ==> key == id.value
    requires id.None? ==> key !in passes0
    requires RegistrationsReferToPasses(passes0, regs0)
    requires db.passes == passes0[key := instance.(data := None, updatedAt := now)]
    requires db.registrations == SurvivingRegistrations(regs0, key, push1)
    modifies db
    ensures db.Valid()
    ensures db.logs == old(db.logs) && db.events == old(db.events)
    ensures r == Failure(Signals.SaveRejected) <==>
      Clashes(passes0, id, instance.passTypeIdentifier, instance.serialNumber)
    ensures r.Success? ==>
      r.value == key &&
      db.passes == passes0[key := instance.(data := Some(file), updatedAt := now)] &&
      db.registrations == SurvivingRegistrations(SurvivingRegistrations(regs0, key, push1), key, push2)
    ensures (!Clashes(passes0, id, instance.passTypeIdentifier, instance.serialNumber) &&
             !AllAnswered(SurvivingRegistrations(regs0, key, push1), key, push2)) ==>
      r == Failure(Signals.PushUnanswered) &&
      db.passes == passes0[key := instance.(data := Some(file), updatedAt := now)] &&
      PushedPartly(SurvivingRegistrations(regs0, key, push1), db.registrations, key, push2)
    ensures r == Failure(Signals.PushUnanswered) ==>
      id.Some? && !AllAnswered(SurvivingRegistrations(regs0, key, push1), key, push2)
  {
    if id.None? {
      // The registrations of the old table refer to its passes, and the new key is none of them.
      assert forall reg :: reg in db.registrations ==> db.registrations[reg].pazz != key by {
        forall reg | reg in db.registrations ensures db.registrations[reg].pazz != key {
          assert reg in regs0 && db.registrations[reg] == regs0[reg];
        }
      }
      UnreferencedAllAnswered(db.registrations, key, push2);
    }
    SameClashesAfterOwnSave(passes0, db.passes, id, key, instance.passTypeIdentifier, instance.serialNumber);
    ghost var passes1 := db.passes;
    ghost var updated := instance.(data := Some(file), updatedAt := now);
    assert instance.(data := Some(file)).(updatedAt := now) == updated;
    r := Signals.SavePass(db, Some(key), instance.(data := Some(file)), now, push2);
    UpdateTwice(passes0, key, instance.(data := None, updatedAt := now), updated);
  }

  /** The registration table the save with the file starts from: the
      survivors of the unlinking save's push when a file is replaced. */
  function AfterUnlink(
    regs: map<nat, Registration>, key: nat, replacing: bool, push1: Registration -> Option<string>
  ): map<nat, Registration>
  {
    if replacing then SurvivingRegistrations(regs, key, push1) else regs
  }

  /** Saving the pass `key` (given as `id`, or new) does not change which
      other passes clash with a type and serial. */
  lemma SameClashesAfterOwnSave(
    passes0: map<nat, Pass>, passes1: map<nat, Pass>, id: Option<nat>, key: nat, passType: string, serial: string)
    requires id.Some? ==> key == id.value
    requires id.None? ==> key !in passes0
    requires passes1.Keys == passes0.Keys + {key}
    requires forall other :: other in passes0 && other != key ==> passes1[other] == passes0[other]
    ensures Clashes(passes1, Some(key), passType, serial) <==> Clashes(passes0, id, passType, serial)
  {
  }

  /** Once every listed path is done, the staged files are the directory's files. */
  lemma StagedAllOfDirectory(d: Directory, staged: Tree, done: set<string>)
    requires done == set path | path in d && !Hidden(path)
    requires forall path :: path in staged <==> path in done && StagedFromDirectory(d, path)
    requires forall path :: path in staged ==> StagedFromDirectory(d, path) && staged[path] == d[path].content
    ensures staged == DirectoryFiles(d)
  {
  }

  /** The staging steps of build, one after the other, give the temporary
      directory and the manifest that module Bundle defines. */
  lemma StagingSteps(p: Primitives, dir: Option<Directory>, extra: Tree, data: map<string, Json>, req: Required, dirFiles: Tree)
    requires dirFiles == if dir.Some? then DirectoryFiles(dir.value) else map[]
    ensures (dirFiles + extra)[PASS_JSON := p.dumps(JObject(MergePassData(data, req)))] == PassTree(p, dir, extra, data, req)
    ensures (Digests(p, dirFiles) + Digests(p, extra))[PASS_JSON := p.sha1Hex(p.dumps(JObject(MergePassData(data, req))))]
            == ManifestOf(p, dir, extra, data, req)
  {
    DigestsOfUnion(p, dirFiles, extra);
    DigestsOfUpdate(p, dirFiles + extra, PASS_JSON, PassJsonBytes(p, data, req));
  }

  /** Once every listed path of the archive is done, the staged files are its assets. */
  lemma LoadedAllAssets(archive: Tree, staged: Tree, done: set<string>)
    requires forall path :: path in done <==> path in archive && !Hidden(path)
    requires forall path :: path in staged <==> path in done && KeptOnLoad(path)
    requires forall path :: path in staged ==> path in archive && staged[path] == archive[path]
    ensures staged == LoadedAssets(archive)
  {
  }

  /** A path of the directory that _copy_dir_files copies. */
  predicate StagedFromDirectory(d: Directory, path: string) {
    path in d && !Hidden(path) && d[path].RegularFile? && BaseName(path) != DS_STORE
  }

  /** The directory has a regular file at `path`. */
  predicate PathIsFile(d: Directory, path: string) {
    path in d && d[path].RegularFile?
  }

  datatype WriteError =
    | NotBuilt                           // ValueError: builded_pass_content is None
    | SaveFailed(failure: Signals.SaveFailure)

  /** Pass(): a new, unsaved instance with empty fields and no file. */
  function UnsavedPass(): (p: Pass)
    ensures p.data.None?
  {
    Pass("", "", "", None, 0)
  }

  /** The file name write_to_model saves under: the base name of the
      existing file, or "<uuid>.pkpass". */
  function StoredName(p: Pass, freshName: string): (name: string)
    ensures HasStoredFile(p) ==> name == BaseName(p.data.value.name)
    ensures HasStoredFile(p) ==> '/' !in name && IsSuffix(name, p.data.value.name)
    ensures !HasStoredFile(p) ==> name == freshName + ".pkpass"
  {
    if HasStoredFile(p) then BaseName(p.data.value.name) else freshName + ".pkpass"
  }

  /** PassBuilder(directory): the fields, then pass.json read from the
      directory when it has one at its top; json.loads raising makes the
      constructor raise. */
  method NewBuilder(conf: Config, p: Primitives, dir: Option<Directory>, serial: string, token: string)
    returns (r: Result<PassBuilder, BuildError>)
    ensures r.Failure? <==>
      dir.Some? && PathIsFile(dir.value, PASS_JSON) && LoadPassJson(p, dir.value[PASS_JSON].content).Failure?
    ensures r.Failure? ==> r.error == PassJsonUnreadable
    ensures r.Success? ==>
      && fresh(r.value)
      && r.value.passData == (if dir.Some? && PathIsFile(dir.value, PASS_JSON)
                              then LoadPassJson(p, dir.value[PASS_JSON].content).value else JObject(map[]))
      && r.value.passDataRequired == Required(conf.passTypeId, serial, conf.teamId, conf.serviceUrl, token)
      && r.value.directory == dir && r.value.extraFiles == map[]
      && r.value.manifestDict == map[] && r.value.buildedPassContent == None
  {
    var builder := new PassBuilder(conf, dir, serial, token);
    if dir.Some? {
      var loaded := builder.LoadPassJsonFileIfExists(p, dir.value);
      if loaded.Failure? {
        return Failure(loaded.error);
      }
    }
    r := Success(builder);
  }

  /** Pass.new_pass_builder: a builder whose type, serial and token are the
      pass's own. */
  method NewPassBuilder(conf: Config, p: Primitives, pass: Pass, dir: Option<Directory>, serial: string, token: string)
    returns (r: Result<PassBuilder, BuildError>)
    ensures r.Failure? <==>
      dir.Some? && PathIsFile(dir.value, PASS_JSON) && LoadPassJson(p, dir.value[PASS_JSON].content).Failure?
    ensures r.Success? ==>
      && fresh(r.value)
      && r.value.passData == (if dir.Some? && PathIsFile(dir.value, PASS_JSON)
                              then LoadPassJson(p, dir.value[PASS_JSON].content).value else JObject(map[]))
      && r.value.passDataRequired == LoadedRequired(conf, pass)
      && r.value.directory == dir && r.value.extraFiles == map[]
      && r.value.manifestDict == map[] && r.value.buildedPassContent == None
  {
    r := NewBuilder(conf, p, dir, serial, token);
    if r.Success? {
      var builder := r.value;
      builder.passDataRequired := builder.passDataRequired.(
        passTypeIdentifier := pass.passTypeIdentifier,
        serialNumber := pass.serialNumber,
        authenticationToken := pass.authenticationToken);
    }
  }

  /** Pass.get_pass_builder: a fresh builder that stages every listed file
      of the stored archive except pass.json files, signature and
      manifest.json, and whose pass_data is the archive's top-level
      pass.json when any listed file is named pass.json; type, serial and
      token are then overwritten with the pass's own. Reading a pass
      without a file raises. */
  method GetPassBuilder(conf: Config, p: Primitives, pass: Pass, serial: string, token: string)
    returns (r: Result<PassBuilder, BuildError>)
    ensures !HasStoredFile(pass) ==> r == Failure(NoStoredFile)
    ensures HasStoredFile(pass) ==>
      var archive := pass.data.value.archive;
      && (r.Failure? <==> LoadedPassData(p, archive).Failure?)
      && (r.Failure? ==> r.error == LoadedPassData(p, archive).error)
      && (r.Success? ==>
            && fresh(r.value)
            && LoadedPassData(p, archive) == Success(r.value.passData)
            && r.value.extraFiles == LoadedAssets(archive)
            && r.value.passDataRequired == LoadedRequired(conf, pass)
            && r.value.directory == None
            && r.value.manifestDict == map[] && r.value.buildedPassContent == None)
  {
    var builder := new PassBuilder(conf, None, serial, token);
    if !HasStoredFile(pass) {
      return Failure(NoStoredFile);
    }
    var archive := pass.data.value.archive;
    var todo := set path | path in archive && !Hidden(path);
    ghost var listed := todo;
    ghost var done: set<string> := {};
    ghost var seen := false;
    ghost var listedPassJson: string := "";
    while todo != {}
      invariant todo + done == listed && todo !! done
      invariant forall path :: path in listed <==> path in archive && !Hidden(path)
      invariant forall path :: path in builder.extraFiles <==> path in done && KeptOnLoad(path)
      invariant forall path :: path in builder.extraFiles ==> path in archive && builder.extraFiles[path] == archive[path]
      invariant seen ==> listedPassJson in listed && BaseName(listedPassJson) == PASS_JSON
      invariant seen ==> PASS_JSON in archive && LoadPassJson(p, archive[PASS_JSON]) == Success(builder.passData)
      invariant !seen ==> builder.passData == JObject(map[]) && forall path :: path in done ==> BaseName(path) != PASS_JSON
      invariant builder.passDataRequired == Required(conf.passTypeId, serial, conf.teamId, conf.serviceUrl, token)
      invariant builder.directory == None && builder.manifestDict == map[] && builder.buildedPassContent == None
      decreases todo
    {
      var path :| path in todo;
      if BaseName(path) == PASS_JSON {
        LoadedPassDataListed(p, archive, path);
        var loaded := builder.LoadPassJsonFile(p, if PASS_JSON in archive then Some(archive[PASS_JSON]) else None);
        if loaded.Failure? {
          return Failure(loaded.error);
        }
        seen, listedPassJson := true, path;
      } else if KeptOnLoad(path) {
        // signature and manifest.json are not staged
        builder.AddFile(path, archive[path]);
      }
      todo := todo - {path};
      done := done + {path};
    }
    if seen {
      LoadedPassDataListed(p, archive, listedPassJson);
    } else {
      LoadedPassDataUnlisted(p, archive);
    }
    LoadedAllAssets(archive, builder.extraFiles, done);
    builder.passDataRequired := builder.passDataRequired.(
      passTypeIdentifier := pass.passTypeIdentifier,
      serialNumber := pass.serialNumber,
      authenticationToken := pass.authenticationToken);
    r := Success(builder);
  }
}
