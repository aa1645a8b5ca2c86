/** What PassBuilder (django_walletpass/models.py) computes, stated on
    values: the files a build stages, the manifest of their SHA-1 digests,
    the signed archive, and what Pass.get_pass_builder reads back out of
    an archive. SHA-1, JSON serialisation and the PKCS#7 detached
    signature are given functions; a file tree and a zip archive are both
    maps from relative path to bytes. The class in builder.dfy is proved
    against these functions. */
module Bundle {
  import opened Base
  import opened Models

  /** An entry of the source directory: a regular file or a sub-directory. */
  datatype Entry = RegularFile(content: Bytes) | Folder

  /** A directory tree: every entry under it, by path relative to it. */
  type Directory = map<string, Entry>

  /** Files by relative path: a temporary build directory or an archive. */
  type Tree = map<string, Bytes>

  /** manifest.json: relative path to hex SHA-1 digest. */
  type Manifest = map<string, string>

  const PASS_JSON: string := "pass.json"
  const MANIFEST_JSON: string := "manifest.json"
  const SIGNATURE: string := "signature"
  const DS_STORE: string := ".DS_Store"

  /** The configured PASS_TYPE_ID, TEAM_ID and SERVICE_URL. */
  datatype Config = Config(passTypeId: string, teamId: string, serviceUrl: string)

  /** pass_data_required: the five identifier fields the system issues. */
  datatype Required = Required(
    passTypeIdentifier: string,
    serialNumber: string,
    teamIdentifier: string,
    webServiceURL: string,
    authenticationToken: string)
  {
    /** The fields as the JSON members they become in pass.json. */
    function AsJson(): (m: map<string, Json>)
      ensures m.Keys == REQUIRED_KEYS
    {
      map[
        "passTypeIdentifier" := JString(passTypeIdentifier),
        "serialNumber" := JString(serialNumber),
        "teamIdentifier" := JString(teamIdentifier),
        "webServiceURL" := JString(webServiceURL),
        "authenticationToken" := JString(authenticationToken)]
    }
  }

  const REQUIRED_KEYS: set<string> :=
    {"passTypeIdentifier", "serialNumber", "teamIdentifier", "webServiceURL", "authenticationToken"}

  /** The primitives the builder calls and this model does not look into. */
  datatype Primitives = Primitives(
    sha1Hex: Bytes -> string,          // hashlib.sha1(b).hexdigest()
    dumps: Json -> Bytes,              // bytes(json.dumps(j), 'utf8')
    loads: Bytes -> Option<Json>,      // json.loads, None when it raises
    sign: Bytes -> Option<Bytes>)      // PKCS#7 detached signature, None when signing fails

  /** json.loads reads back what json.dumps wrote. */
  ghost predicate LoadsInvertsDumps(p: Primitives) {
    forall j :: p.loads(p.dumps(j)) == Some(j)
  }

  datatype BuildError =
    | ValidationError     // "Cannot obtain data for pass.json."
    | SigningFailed       // the signing primitive raised
    | PassJsonUnreadable  // json.loads raised on a pass.json
    | PassJsonMissing     // pass.json was looked for but is not there
    | NoBuiltContent      // write_to_model before a successful build
    | NoStoredFile        // the pass has no file to read
    | PassDataNotDict     // AttributeError: pass_data has no update(), it is not a JSON object

  /** glob('**') does not list a path one of whose components starts
      with a dot. */
  predicate Hidden(path: string) {
    (|path| > 0 && path[0] == '.') ||
    exists i :: 0 <= i < |path| - 1 && path[i] == '/' && path[i + 1] == '.'
  }

  /** A name without '/' that does not start with a dot is listed. */
  lemma {:induction false} PlainNameVisible(name: string)
    requires '/' !in name && (|name| > 0 ==> name[0] != '.')
    ensures !Hidden(name)
  {
    forall i | 0 <= i < |name| - 1 ensures name[i] != '/' {
      assert name[i] in name;
    }
  }

  /** The three names the builder reserves are listed by glob and are
      their own base names. */
  lemma ReservedNames()
    ensures !Hidden(PASS_JSON) && !Hidden(MANIFEST_JSON) && !Hidden(SIGNATURE)
    ensures BaseName(PASS_JSON) == PASS_JSON
  {
    PlainNameVisible(PASS_JSON);
    PlainNameVisible(MANIFEST_JSON);
    PlainNameVisible(SIGNATURE);
  }

  /** The files _copy_dir_files stages: the regular files glob lists,
      except those named .DS_Store. */
  function DirectoryFiles(d: Directory): (files: Tree)
  {
    map path | path in d && !Hidden(path) && d[path].RegularFile? && BaseName(path) != DS_STORE :: d[path].content
  }

  /** The .DS_Store test is redundant once glob has skipped hidden names:
      every staged directory file is simply a visible regular file. */
  lemma DsStoreIsHidden(path: string)
    requires BaseName(path) == DS_STORE
    ensures Hidden(path)
  {
    var b := BaseName(path);
    assert b[0] == '.';
    if |b| < |path| {
      var i := |path| - |b| - 1;
      assert path[i] == '/';
      assert path[i + 1] == b[0];
    } else {
      assert path == b;
    }
  }

  /** The files a build stages before pass.json: the directory's files,
      then the extra files, a later one replacing an earlier one at the
      same path. */
  function StagedFiles(dir: Option<Directory>, extra: Tree): (files: Tree)
  {
    (if dir.Some? then DirectoryFiles(dir.value) else map[]) + extra
  }

  /** pre_build_pass_data: pass_data.update(pass_data_required). */
  function MergePassData(data: map<string, Json>, req: Required): (merged: map<string, Json>)
    ensures merged.Keys == data.Keys + REQUIRED_KEYS
    ensures forall k :: k in REQUIRED_KEYS ==> merged[k] == req.AsJson()[k]
    ensures forall k :: k in data && k !in REQUIRED_KEYS ==> merged[k] == data[k]
  {
    data + req.AsJson()
  }

  /** Merging the same required fields a second time changes nothing. */
  lemma MergeIdempotent(data: map<string, Json>, req: Required)
    ensures MergePassData(MergePassData(data, req), req) == MergePassData(data, req)
  {
  }

  /** The bytes written to pass.json. */
  function PassJsonBytes(p: Primitives, data: map<string, Json>, req: Required): Bytes
  {
    p.dumps(JObject(MergePassData(data, req)))
  }

  /** The temporary directory once pass.json is written. */
  function PassTree(p: Primitives, dir: Option<Directory>, extra: Tree, data: map<string, Json>, req: Required): (tree: Tree)
  {
    StagedFiles(dir, extra)[PASS_JSON := PassJsonBytes(p, data, req)]
  }

  /** One hex SHA-1 digest per file. */
  function Digests(p: Primitives, files: Tree): (m: Manifest)
    ensures m.Keys == files.Keys
    ensures forall path :: path in files ==> m[path] == p.sha1Hex(files[path])
  {
    map path | path in files :: p.sha1Hex(files[path])
  }

  lemma EmptyUnion<V>(m: map<string, V>)
    ensures map[] + m == m
  {
  }

  /** Digesting two stages one after the other is digesting their union,
      a later stage's entry replacing an earlier one at the same path. */
  lemma DigestsOfUnion(p: Primitives, first: Tree, second: Tree)
    ensures Digests(p, first) + Digests(p, second) == Digests(p, first + second)
  {
  }

  /** Writing one more file adds its digest to the manifest. */
  lemma DigestsOfUpdate(p: Primitives, files: Tree, path: string, content: Bytes)
    ensures Digests(p, files)[path := p.sha1Hex(content)] == Digests(p, files[path := content])
  {
  }

  /** One more staged file, as the staging loops add it: the temporary
      directory and the manifest each gain that one entry. */
  lemma StageOneMore(p: Primitives, tmp: Tree, m0: Manifest, staged: Tree, path: string, content: Bytes)
    ensures (tmp + staged)[path := content] == tmp + staged[path := content]
    ensures (m0 + Digests(p, staged))[path := p.sha1Hex(content)] == m0 + Digests(p, staged[path := content])
  {
    UnionUpdate(tmp, staged, path, content);
    DigestsOfUpdate(p, staged, path, content);
    UnionUpdate(m0, Digests(p, staged), path, p.sha1Hex(content));
  }

  /** Writing one entry after a union is writing it into the second map. */
  lemma UnionUpdate<V>(first: map<string, V>, second: map<string, V>, key: string, value: V)
    ensures (first + second)[key := value] == first + second[key := value]
  {
  }

  /** manifest_dict after _write_pass_json. */
  function ManifestOf(p: Primitives, dir: Option<Directory>, extra: Tree, data: map<string, Json>, req: Required): Manifest
  {
    Digests(p, PassTree(p, dir, extra, data, req))
  }

  /** The manifest as the JSON object json.dumps serialises. */
  function ManifestJson(m: Manifest): Json
  {
    JObject(map path | path in m :: JString(m[path]))
  }

  function ManifestBytes(p: Primitives, m: Manifest): Bytes
  {
    p.dumps(ManifestJson(m))
  }

  /** _zip_all: the files of the temporary directory that glob lists. */
  function Zip(tree: Tree): (archive: Tree)
  {
    map path | path in tree && !Hidden(path) :: tree[path]
  }

  /** PassBuilder.build: ValidationError on empty pass_data; otherwise the
      archive of the staged files, pass.json, manifest.json and the
      signature over exactly the manifest.json bytes. */
  function PassBuild(p: Primitives, dir: Option<Directory>, extra: Tree, data: map<string, Json>, req: Required): (r: Result<Tree, BuildError>)
  {
    if data == map[] then Failure(ValidationError)
    else
      var tree := PassTree(p, dir, extra, data, req);
      var manifestBytes := ManifestBytes(p, Digests(p, tree));
      match p.sign(manifestBytes)
      case None => Failure(SigningFailed)
      case Some(signature) => Success(Zip(tree[MANIFEST_JSON := manifestBytes][SIGNATURE := signature]))
  }

  /** Python truthiness of a JSON value: None, False, 0, "", [] and {}
      are false. */
  predicate Falsy(j: Json) {
    match j
    case JNull => true
    case JBool(b) => !b
    case JNumber(n) => n == 0
    case JString(s) => s == ""
    case JArray(items) => items == []
    case JObject(fields) => fields == map[]
  }

  /** PassBuilder.build on any pass_data: validate rejects a falsy value;
      a truthy value that is not an object makes pass_data.update raise
      AttributeError; an object is built as PassBuild says. */
  function BuildPassData(p: Primitives, dir: Option<Directory>, extra: Tree, data: Json, req: Required): (r: Result<Tree, BuildError>)
    ensures r == Failure(ValidationError) <==> Falsy(data)
    ensures r == Failure(PassDataNotDict) <==> !Falsy(data) && !data.JObject?
    ensures r == Failure(SigningFailed) <==>
      data.JObject? && data.fields != map[] && p.sign(ManifestBytes(p, ManifestOf(p, dir, extra, data.fields, req))).None?
    ensures r.Success? ==> data.JObject? && r == PassBuild(p, dir, extra, data.fields, req)
  {
    if data.JObject? then
      BuildOutcome(p, dir, extra, data.fields, req);
      PassBuild(p, dir, extra, data.fields, req)
    else if Falsy(data) then Failure(ValidationError)
    else Failure(PassDataNotDict)
  }

  /** The manifest lists exactly the directory's staged files, the extra
      files and pass.json; pass.json is digested from the merged data, an
      extra file from its own bytes, and a directory file only when no
      extra file has its path. */
  lemma {:induction false} ManifestEntries(p: Primitives, dir: Option<Directory>, extra: Tree, data: map<string, Json>, req: Required)
    ensures var m := ManifestOf(p, dir, extra, data, req);
            var dirFiles := if dir.Some? then DirectoryFiles(dir.value) else map[];
            && m.Keys == dirFiles.Keys + extra.Keys + {PASS_JSON}
            && m[PASS_JSON] == p.sha1Hex(p.dumps(JObject(MergePassData(data, req))))
            && (forall path :: path in extra && path != PASS_JSON ==> m[path] == p.sha1Hex(extra[path]))
            && (forall path :: path in dirFiles && path !in extra && path != PASS_JSON ==> m[path] == p.sha1Hex(dirFiles[path]))
  {
    var dirFiles := if dir.Some? then DirectoryFiles(dir.value) else map[];
    assert StagedFiles(dir, extra) == dirFiles + extra;
    DigestsOfStaged(p, dirFiles, extra, PassJsonBytes(p, data, req));
  }

  /** The digests of two stages and pass.json written over them. */
  lemma DigestsOfStaged(p: Primitives, first: Tree, second: Tree, passJson: Bytes)
    ensures var m := Digests(p, (first + second)[PASS_JSON := passJson]);
            && m.Keys == first.Keys + second.Keys + {PASS_JSON}
            && m[PASS_JSON] == p.sha1Hex(passJson)
            && (forall path :: path in second && path != PASS_JSON ==> m[path] == p.sha1Hex(second[path]))
            && (forall path :: path in first && path !in second && path != PASS_JSON ==> m[path] == p.sha1Hex(first[path]))
  {
  }

  /** Changing pass_data changes at most the pass.json entry of the
      manifest; every asset's digest stays the same. */
  lemma {:induction false} PassDataOnlyTouchesPassJson(
    p: Primitives, dir: Option<Directory>, extra: Tree,
    data1: map<string, Json>, data2: map<string, Json>, req: Required, path: string)
    requires path != PASS_JSON
    ensures path in ManifestOf(p, dir, extra, data1, req) <==> path in ManifestOf(p, dir, extra, data2, req)
    ensures path in ManifestOf(p, dir, extra, data1, req) ==>
            ManifestOf(p, dir, extra, data1, req)[path] == ManifestOf(p, dir, extra, data2, req)[path]
  {
    var staged := StagedFiles(dir, extra);
    var t1 := PassTree(p, dir, extra, data1, req);
    var t2 := PassTree(p, dir, extra, data2, req);
    assert path in t1 <==> path in staged;
    assert path in t2 <==> path in staged;
    if path in staged {
      assert t1[path] == staged[path] == t2[path];
    }
  }

  /** The signed archive of a tree: its visible files, manifest.json and
      signature, the last two replacing any staged file of that name. */
  lemma {:induction false} SignedArchive(tree: Tree, manifestBytes: Bytes, signature: Bytes)
    ensures var archive := Zip(tree[MANIFEST_JSON := manifestBytes][SIGNATURE := signature]);
      && archive.Keys == (set path | path in tree && !Hidden(path)) + {MANIFEST_JSON, SIGNATURE}
      && archive[MANIFEST_JSON] == manifestBytes
      && archive[SIGNATURE] == signature
      && (forall path :: path in tree && !Hidden(path) && path != MANIFEST_JSON && path != SIGNATURE ==>
            archive[path] == tree[path])
  {
    ReservedNames();
  }

  /** A build fails with ValidationError exactly on empty pass_data, and
      otherwise only when signing the manifest fails. */
  lemma {:induction false} BuildOutcome(
    p: Primitives, dir: Option<Directory>, extra: Tree, data: map<string, Json>, req: Required)
    ensures PassBuild(p, dir, extra, data, req) == Failure(ValidationError) <==> data == map[]
    ensures PassBuild(p, dir, extra, data, req) == Failure(SigningFailed) <==>
      data != map[] && p.sign(ManifestBytes(p, ManifestOf(p, dir, extra, data, req))).None?
    ensures PassBuild(p, dir, extra, data, req).Success? <==>
      data != map[] && p.sign(ManifestBytes(p, ManifestOf(p, dir, extra, data, req))).Some?
  {
  }

  /** A successful build's archive holds every visible manifest path with
      the bytes that were digested, pass.json with the merged data,
      manifest.json with the serialised manifest, and the signature of
      exactly those manifest.json bytes. */
  lemma {:induction false} BuiltArchiveMatchesManifest(
    p: Primitives, dir: Option<Directory>, extra: Tree, data: map<string, Json>, req: Required)
    requires PassBuild(p, dir, extra, data, req).Success?
    ensures var archive := PassBuild(p, dir, extra, data, req).value;
      var m := ManifestOf(p, dir, extra, data, req);
      && archive.Keys == (set path | path in m && !Hidden(path)) + {MANIFEST_JSON, SIGNATURE}
      && MANIFEST_JSON in archive && SIGNATURE in archive
      && archive[MANIFEST_JSON] == ManifestBytes(p, m)
      && p.sign(archive[MANIFEST_JSON]) == Some(archive[SIGNATURE])
      && (forall path :: path in m && !Hidden(path) && path != MANIFEST_JSON && path != SIGNATURE ==>
            path in archive && p.sha1Hex(archive[path]) == m[path])
      && PASS_JSON in archive && archive[PASS_JSON] == PassJsonBytes(p, data, req)
  {
    var tree := PassTree(p, dir, extra, data, req);
    var m := Digests(p, tree);
    var mb := ManifestBytes(p, m);
    var signature := p.sign(mb).value;
    var archive := Zip(tree[MANIFEST_JSON := mb][SIGNATURE := signature]);
    assert PassBuild(p, dir, extra, data, req).value == archive;
    SignedArchive(tree, mb, signature);
    ReservedNames();
    VisibleDigestKeys(p, tree);
    assert tree[PASS_JSON] == PassJsonBytes(p, data, req);
    forall path | path in m && !Hidden(path) && path != MANIFEST_JSON && path != SIGNATURE
      ensures p.sha1Hex(archive[path]) == m[path]
    {
      assert archive[path] == tree[path];
    }
  }

  /** The visible paths of a manifest are the visible staged paths. */
  lemma VisibleDigestKeys(p: Primitives, tree: Tree)
    ensures (set path | path in Digests(p, tree) && !Hidden(path)) == (set path | path in tree && !Hidden(path))
  {
  }

  /** Pass.get_pass_builder drops every file named pass.json (wherever it
      is), signature and manifest.json, and stages every other file. */
  predicate KeptOnLoad(path: string) {
    !Hidden(path) && BaseName(path) != PASS_JSON && path != SIGNATURE && path != MANIFEST_JSON
  }

  function LoadedAssets(archive: Tree): (assets: Tree)
  {
    map path | path in archive && KeptOnLoad(path) :: archive[path]
  }

  /** load_pass_json_file: pass_data becomes whatever JSON value pass.json
      holds; only bytes that do not parse are an error here. */
  function LoadPassJson(p: Primitives, content: Bytes): (r: Result<Json, BuildError>)
    ensures r.Failure? ==> r.error == PassJsonUnreadable
    ensures r.Success? <==> p.loads(content).Some?
    ensures r.Success? ==> Some(r.value) == p.loads(content)
  {
    match p.loads(content)
    case Some(j) => Success(j)
    case None => Failure(PassJsonUnreadable)
  }

  /** pass_data after the load-back loop: when some listed file is named
      pass.json, the top-level pass.json is read; otherwise pass_data stays
      empty. */
  function LoadedPassData(p: Primitives, archive: Tree): (r: Result<Json, BuildError>)
  {
    if exists path :: path in archive && !Hidden(path) && BaseName(path) == PASS_JSON then
      if PASS_JSON in archive then LoadPassJson(p, archive[PASS_JSON]) else Failure(PassJsonMissing)
    else
      Success(JObject(map[]))
  }

  /** A listed file named pass.json makes the load-back read the
      top-level pass.json. */
  lemma LoadedPassDataListed(p: Primitives, archive: Tree, path: string)
    requires path in archive && !Hidden(path) && BaseName(path) == PASS_JSON
    ensures LoadedPassData(p, archive) ==
      if PASS_JSON in archive then LoadPassJson(p, archive[PASS_JSON]) else Failure(PassJsonMissing)
  {
  }

  /** Without a listed file named pass.json, pass_data stays empty. */
  lemma LoadedPassDataUnlisted(p: Primitives, archive: Tree)
    requires forall path :: path in archive && !Hidden(path) ==> BaseName(path) != PASS_JSON
    ensures LoadedPassData(p, archive) == Success(JObject(map[]))
  {
  }

  /** pass_data_required after the load-back: a fresh builder's team and
      service URL from configuration, type, serial and token from the pass. */
  function LoadedRequired(conf: Config, pass: Pass): (req: Required)
    ensures req.passTypeIdentifier == pass.passTypeIdentifier && req.serialNumber == pass.serialNumber
    ensures req.authenticationToken == pass.authenticationToken
    ensures req.teamIdentifier == conf.teamId && req.webServiceURL == conf.serviceUrl
  {
    Required(pass.passTypeIdentifier, pass.serialNumber, conf.teamId, conf.serviceUrl, pass.authenticationToken)
  }

  /** Staged paths that survive a build and a load-back unchanged: visible,
      not manifest.json or signature, and not a nested pass.json. */
  ghost predicate RoundTrippable(files: Tree) {
    forall path :: path in files ==>
      !Hidden(path) && path != MANIFEST_JSON && path != SIGNATURE &&
      (BaseName(path) == PASS_JSON ==> path == PASS_JSON)
  }

  /** Reading back the signed archive of a tree keeps a round-trippable
      path exactly when it is not pass.json, with its bytes. */
  lemma LoadedAssetAt(staged: Tree, passJson: Bytes, manifestBytes: Bytes, signature: Bytes, path: string)
    requires RoundTrippable(staged)
    ensures var loaded := LoadedAssets(Zip(staged[PASS_JSON := passJson][MANIFEST_JSON := manifestBytes][SIGNATURE := signature]));
      && (path in loaded <==> path in staged && path != PASS_JSON)
      && (path in loaded ==> loaded[path] == staged[path])
  {
    var signed := staged[PASS_JSON := passJson][MANIFEST_JSON := manifestBytes][SIGNATURE := signature];
    var archive := Zip(signed);
    ReservedNames();
    if path in staged && path != PASS_JSON {
      assert path != MANIFEST_JSON && path != SIGNATURE && !Hidden(path);
      assert path in archive && archive[path] == staged[path];
      assert KeptOnLoad(path);
    } else if path == PASS_JSON {
      assert !KeptOnLoad(path);
    } else {
      assert path !in signed || !KeptOnLoad(path);
    }
  }

  /** Reading back the signed archive of a tree gives back its files
      other than pass.json, when all of them are round-trippable. */
  lemma {:induction false} LoadedAssetsOfSigned(staged: Tree, passJson: Bytes, manifestBytes: Bytes, signature: Bytes)
    requires RoundTrippable(staged)
    ensures LoadedAssets(Zip(staged[PASS_JSON := passJson][MANIFEST_JSON := manifestBytes][SIGNATURE := signature]))
            == staged - {PASS_JSON}
  {
    var loaded := LoadedAssets(Zip(staged[PASS_JSON := passJson][MANIFEST_JSON := manifestBytes][SIGNATURE := signature]));
    forall path ensures (path in loaded <==> path in staged - {PASS_JSON}) && (path in loaded ==> loaded[path] == staged[path]) {
      LoadedAssetAt(staged, passJson, manifestBytes, signature, path);
    }
  }

  /** get_pass_builder on a built archive stages exactly the files the
      build staged, pass.json aside, when all of them are round-trippable. */
  lemma {:induction false} LoadedAssetsOfBuild(
    p: Primitives, dir: Option<Directory>, extra: Tree, data: map<string, Json>, req: Required)
    requires RoundTrippable(StagedFiles(dir, extra))
    requires PassBuild(p, dir, extra, data, req).Success?
    ensures LoadedAssets(PassBuild(p, dir, extra, data, req).value) == StagedFiles(dir, extra) - {PASS_JSON}
  {
    var tree := PassTree(p, dir, extra, data, req);
    var mb := ManifestBytes(p, Digests(p, tree));
    LoadedAssetsOfSigned(StagedFiles(dir, extra), PassJsonBytes(p, data, req), mb, p.sign(mb).value);
  }

  /** get_pass_builder on a built archive reads back the merged pass_data,
      when json.loads inverts json.dumps. */
  lemma LoadedPassDataOfBuild(
    p: Primitives, dir: Option<Directory>, extra: Tree, data: map<string, Json>, req: Required)
    requires LoadsInvertsDumps(p)
    requires PassBuild(p, dir, extra, data, req).Success?
    ensures LoadedPassData(p, PassBuild(p, dir, extra, data, req).value) == Success(JObject(MergePassData(data, req)))
  {
    var archive := PassBuild(p, dir, extra, data, req).value;
    BuiltPassJson(p, dir, extra, data, req);
    ReservedNames();
    LoadedPassDataListed(p, archive, PASS_JSON);
    var merged := MergePassData(data, req);
    assert p.loads(p.dumps(JObject(merged))) == Some(JObject(merged));
    assert LoadPassJson(p, archive[PASS_JSON]) == Success(JObject(merged));
  }

  /** A successful build's archive holds pass.json with the merged data. */
  lemma BuiltPassJson(p: Primitives, dir: Option<Directory>, extra: Tree, data: map<string, Json>, req: Required)
    requires PassBuild(p, dir, extra, data, req).Success?
    ensures PASS_JSON in PassBuild(p, dir, extra, data, req).value
    ensures PassBuild(p, dir, extra, data, req).value[PASS_JSON] == PassJsonBytes(p, data, req)
  {
    var tree := PassTree(p, dir, extra, data, req);
    var mb := ManifestBytes(p, Digests(p, tree));
    var signature := p.sign(mb).value;
    var signed := tree[MANIFEST_JSON := mb][SIGNATURE := signature];
    assert PassBuild(p, dir, extra, data, req).value == Zip(signed);
    assert tree[PASS_JSON] == PassJsonBytes(p, data, req);
    assert PASS_JSON in signed && signed[PASS_JSON] == tree[PASS_JSON];
    ReservedNames();
    ZipKeeps(signed, PASS_JSON);
  }

  /** _zip_all keeps every listed file. */
  lemma ZipKeeps(tree: Tree, path: string)
    requires path in tree && !Hidden(path)
    ensures path in Zip(tree) && Zip(tree)[path] == tree[path]
  {
  }

  /** What build returns once pass.json is written: the signer's failure,
      or the archive of the tree with manifest.json and its signature. */
  lemma BuildOfTree(p: Primitives, dir: Option<Directory>, extra: Tree, data: map<string, Json>, req: Required)
    requires data != map[]
    ensures var tree := PassTree(p, dir, extra, data, req);
            var mb := ManifestBytes(p, ManifestOf(p, dir, extra, data, req));
            && (p.sign(mb).None? ==> PassBuild(p, dir, extra, data, req) == Failure(SigningFailed))
            && (p.sign(mb).Some? ==>
                  PassBuild(p, dir, extra, data, req) == Success(Zip(tree[MANIFEST_JSON := mb][SIGNATURE := p.sign(mb).value])))
  {
  }

  /** A build depends on its inputs only through the tree it writes and
      whether pass_data is empty. */
  lemma SameTreeSameBuild(
    p: Primitives, dir1: Option<Directory>, extra1: Tree, data1: map<string, Json>, req1: Required,
    dir2: Option<Directory>, extra2: Tree, data2: map<string, Json>, req2: Required)
    requires PassTree(p, dir1, extra1, data1, req1) == PassTree(p, dir2, extra2, data2, req2)
    requires data1 != map[] && data2 != map[]
    ensures ManifestOf(p, dir1, extra1, data1, req1) == ManifestOf(p, dir2, extra2, data2, req2)
    ensures PassBuild(p, dir1, extra1, data1, req1) == PassBuild(p, dir2, extra2, data2, req2)
  {
    BuildOfTree(p, dir1, extra1, data1, req1);
    BuildOfTree(p, dir2, extra2, data2, req2);
  }

  /** The tree a rebuild writes from a built archive's load-back. */
  lemma {:induction false} RebuiltTree(
    p: Primitives, dir: Option<Directory>, extra: Tree, data: map<string, Json>, req: Required)
    requires RoundTrippable(StagedFiles(dir, extra))
    requires PassBuild(p, dir, extra, data, req).Success?
    ensures PassTree(p, None, LoadedAssets(PassBuild(p, dir, extra, data, req).value), MergePassData(data, req), req)
            == PassTree(p, dir, extra, data, req)
  {
    LoadedAssetsOfBuild(p, dir, extra, data, req);
    MergeIdempotent(data, req);
    ReplacePassJson(StagedFiles(dir, extra), PassJsonBytes(p, data, req));
  }

  lemma ReplacePassJson(staged: Tree, passJson: Bytes)
    ensures (map[] + (staged - {PASS_JSON}))[PASS_JSON := passJson] == staged[PASS_JSON := passJson]
  {
  }

  /** Rebuilding from what get_pass_builder reads out of a built archive,
      for a pass carrying the builder's type, serial and token, writes the
      same temporary directory and so the same manifest and the same
      archive (the tests' builder.manifest_dict == builder2.manifest_dict
      after a rebuild). It needs json.loads to invert json.dumps, the
      configured team and service URL in the required fields, and staged
      paths that a build and a load-back keep. */
  lemma {:induction false} RebuildReproducesManifest(
    p: Primitives, conf: Config, pass: Pass,
    dir: Option<Directory>, extra: Tree, data: map<string, Json>, req: Required)
    requires LoadsInvertsDumps(p)
    requires req.teamIdentifier == conf.teamId && req.webServiceURL == conf.serviceUrl
    requires pass.passTypeIdentifier == req.passTypeIdentifier && pass.serialNumber == req.serialNumber
    requires pass.authenticationToken == req.authenticationToken
    requires RoundTrippable(StagedFiles(dir, extra))
    requires PassBuild(p, dir, extra, data, req).Success?
    ensures LoadedPassData(p, PassBuild(p, dir, extra, data, req).value) == Success(JObject(MergePassData(data, req)))
    ensures var archive := PassBuild(p, dir, extra, data, req).value;
            var data2 := MergePassData(data, req);
            var req2 := LoadedRequired(conf, pass);
            && PassTree(p, None, LoadedAssets(archive), data2, req2) == PassTree(p, dir, extra, data, req)
            && ManifestOf(p, None, LoadedAssets(archive), data2, req2) == ManifestOf(p, dir, extra, data, req)
            && PassBuild(p, None, LoadedAssets(archive), data2, req2) == PassBuild(p, dir, extra, data, req)
  {
    var archive := PassBuild(p, dir, extra, data, req).value;
    var merged := MergePassData(data, req);
    assert LoadedRequired(conf, pass) == req;
    LoadedPassDataOfBuild(p, dir, extra, data, req);
    RebuiltTree(p, dir, extra, data, req);
    assert merged != map[] by { assert "serialNumber" in merged; }
    SameTreeSameBuild(p, None, LoadedAssets(archive), merged, req, dir, extra, data, req);
  }

  /** A nested file named pass.json (say "en.lproj/pass.json") is in the
      manifest of a build but is dropped when the archive is read back, so
      the rebuilt manifest lacks it. */
  lemma NestedPassJsonIsDropped(archive: Tree)
    requires "en.lproj/pass.json" in archive
    ensures "en.lproj/pass.json" !in LoadedAssets(archive)
  {
    assert "en.lproj/pass.json" == "en.lproj" + "/" + PASS_JSON;
    assert '/' !in PASS_JSON;
    BaseNameAfterSlash("en.lproj", PASS_JSON);
  }
}
