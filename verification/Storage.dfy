/** The local-disk and S3 storage providers: object keys, where they lead, and what they reach. */
module Storage {
  import opened Common
  import opened Paths

  predicate FolderChar(c: char) {
    'a' <= c <= 'z' || 'A' <= c <= 'Z' || '0' <= c <= '9' || c == '_' || c == '-'
  }

  predicate FilenameChar(c: char) { FolderChar(c) || c == '.' }

  /** SAFE_FOLDER_PATTERN and SAFE_FILENAME_PATTERN. */
  predicate SafeFolder(s: string) { 1 <= |s| <= 64 && forall c | c in s :: FolderChar(c) }
  predicate SafeFilename(s: string) { 1 <= |s| <= 255 && forall c | c in s :: FilenameChar(c) }

  /** S3StorageProvider.assertSafeKey. */
  predicate S3Accepts(key: string) {
    var segments := Split(key);
    |segments| == 2 && SafeFolder(segments[0]) && SafeFilename(segments[1])
  }

  /** LocalStorageProvider.resolveSafePath under the root directory named by `dirs`. */
  function ResolveSafePath(dirs: seq<string>, key: string): Option<string> {
    var segments := Split(key);
    if |segments| != 2 then None
    else
      var folder, filename := segments[0], segments[1];
      if !SafeFolder(folder) || !SafeFilename(filename) then None
      else
        var rootDir := AbsolutePath(dirs);
        var fullPath := Resolve(rootDir + "/" + (folder + "/" + filename));
        if StartsWith(fullPath, rootDir + "/") then Some(fullPath) else None
  }

  // ----- which keys are accepted, and where they lead -----

  lemma SafeFolderIsName(s: string)
    requires SafeFolder(s)
    ensures IsName(s)
  {
    assert s[0] in s;
  }

  lemma SafeFilenameNoSlash(s: string)
    requires SafeFilename(s)
    ensures NoSlash(s) && s != ""
  {
  }

  /** What a well-formed key resolves to, before the containment check. */
  function Below(dirs: seq<string>, folder: string, filename: string): seq<string> {
    if filename == "." then dirs + [folder]
    else if filename == ".." then dirs
    else dirs + [folder, filename]
  }

  lemma ResolveKey(dirs: seq<string>, folder: string, filename: string)
    requires AreNames(dirs) && IsName(folder) && NoSlash(filename) && filename != ""
    ensures ResolveNames(AbsolutePath(dirs) + "/" + (folder + "/" + filename)) == Below(dirs, folder, filename)
  {
    ResolveBelow(dirs, folder + "/" + filename);
    SplitConcat(folder, filename);
    SplitName(folder);
    SplitName(filename);
    var stack := dirs + [folder];
    assert [folder] + [filename] == [folder, filename];
    NormalizeNames([folder], dirs, [filename]);
    assert [filename][1..] == [];
    assert stack[..|stack| - 1] == dirs;
    assert stack + [filename] == dirs + [folder, filename];
  }

  /** A path of names is strictly below the root exactly when its names properly extend a non-empty root. */
  lemma InsideRoot(dirs: seq<string>, below: seq<string>)
    requires AreNames(dirs) && AreNames(dirs + below)
    ensures StartsWith(AbsolutePath(dirs + below), AbsolutePath(dirs) + "/") <==> |dirs| > 0 && |below| > 0
  {
    if |dirs| == 0 {
      if |below| > 0 {
        assert dirs + below == below;
        assert below[0] in dirs + below;
        assert Join(below)[0] == below[0][0];
        assert below[0][0] in below[0];
        assert AbsolutePath(below)[1] == below[0][0];
        assert (AbsolutePath(dirs) + "/")[1] == '/';
      }
    } else if |below| == 0 {
      assert dirs + below == dirs;
    } else {
      JoinConcat(dirs, below);
    }
  }

  /**
   * Both validators compared, for every key and every root: the local provider accepts
   * exactly the keys S3 accepts whose filename is not `..`, and none at all under `/`.
   */
  lemma LocalAcceptsExactly(dirs: seq<string>, key: string)
    requires AreNames(dirs)
    ensures ResolveSafePath(dirs, key).Some? <==> |dirs| > 0 && S3Accepts(key) && Split(key)[1] != ".."
    ensures ResolveSafePath(dirs, key).Some? ==>
      ResolveSafePath(dirs, key).value == AbsolutePath(Below(dirs, Split(key)[0], Split(key)[1]))
  {
    if S3Accepts(key) {
      var folder, filename := Split(key)[0], Split(key)[1];
      SafeFolderIsName(folder);
      SafeFilenameNoSlash(filename);
      ResolveKey(dirs, folder, filename);
      var below := if filename == "." then [folder] else if filename == ".." then [] else [folder, filename];
      assert Below(dirs, folder, filename) == dirs + below;
      InsideRoot(dirs, below);
    }
  }

  /** Every accepted key leads strictly inside the root directory, at most two levels down. */
  lemma Containment(dirs: seq<string>, key: string)
    requires AreNames(dirs) && ResolveSafePath(dirs, key).Some?
    ensures var path := ResolveSafePath(dirs, key).value;
      && AbsolutePath(dirs) + "/" < path && Resolve(path) == path
      && dirs < ResolveNames(path) && |ResolveNames(path)| <= |dirs| + 2
  {
    LocalAcceptsExactly(dirs, key);
    var folder, filename := Split(key)[0], Split(key)[1];
    SafeFolderIsName(folder);
    SafeFilenameNoSlash(filename);
    var names := Below(dirs, folder, filename);
    var path := AbsolutePath(names);
    SplitAbsolute(names);
    NormalizeNames(names, [], []);
    assert names + [] == names && [] + names == names;
    assert Split(path)[1..] == names;
    var below := names[|dirs|..];
    assert names == dirs + below;
    JoinConcat(dirs, below);
    assert below[0] == folder;
  }

  /** Distinct accepted keys lead to distinct paths. */
  lemma KeysDoNotCollide(dirs: seq<string>, key: string, key': string)
    requires AreNames(dirs) && ResolveSafePath(dirs, key).Some?
    requires ResolveSafePath(dirs, key) == ResolveSafePath(dirs, key')
    ensures key == key'
  {
    LocalAcceptsExactly(dirs, key);
    LocalAcceptsExactly(dirs, key');
    var f, n, f', n' := Split(key)[0], Split(key)[1], Split(key')[0], Split(key')[1];
    SafeFolderIsName(f);
    SafeFolderIsName(f');
    SafeFilenameNoSlash(n);
    SafeFilenameNoSlash(n');
    AbsolutePathInjective(Below(dirs, f, n), Below(dirs, f', n'));
    assert Below(dirs, f, n)[|dirs|] == f && Below(dirs, f', n')[|dirs|] == f';
    assert n != "." ==> Below(dirs, f, n)[|dirs| + 1] == n;
    assert n' != "." ==> Below(dirs, f', n')[|dirs| + 1] == n';
    assert Split(key) == [f, n] && Split(key') == [f', n'];
    JoinSplit(key);
    JoinSplit(key');
  }

  // ----- uploads -----

  /** The last segment of a path, trailing slashes ignored. */
  function BaseName(path: string): string {
    if |path| > 0 && path[|path| - 1] == '/' then BaseName(path[..|path| - 1])
    else Split(path)[|Split(path)| - 1]
  }

  function LastDot(s: string): Option<nat> {
    if |s| == 0 then None else if s[|s| - 1] == '.' then Some(|s| - 1) else LastDot(s[..|s| - 1])
  }

  lemma {:induction false} LastDotInRange(s: string)
    ensures LastDot(s).Some? ==> LastDot(s).value < |s| && s[LastDot(s).value] == '.'
  {
    if |s| > 0 {
      LastDotInRange(s[..|s| - 1]);
    }
  }

  /** `path.extname`: from the last dot of the base name, unless it is the first character or the name is `..`. */
  function ExtName(path: string): string {
    var base := BaseName(path);
    LastDotInRange(base);
    match LastDot(base)
    case None => ""
    case Some(i) => if i == 0 || base == ".." then "" else base[i..]
  }

  lemma {:induction false} BaseNameNoSlash(path: string)
    ensures NoSlash(BaseName(path))
  {
    if |path| > 0 && path[|path| - 1] == '/' {
      BaseNameNoSlash(path[..|path| - 1]);
    } else {
      SplitSegments(path);
      assert BaseName(path) in Split(path);
    }
  }

  /** A name's extension runs from its last dot, if that is not the first character and the name is not `..`. */
  lemma ExtNameExactly(stem: string, rest: string)
    requires stem != "" && NoSlash(stem) && NoSlash(rest) && '.' !in rest && stem + "." + rest != ".."
    ensures ExtName(stem + "." + rest) == "." + rest
  {
    var name := stem + "." + rest;
    BaseNameOfName(name);
    LastDotIs(stem, rest);
    assert name[|stem|..] == "." + rest;
  }

  /** The key of an upload: the folder, then the random name with the lower-cased extension of the original name. */
  lemma UploadKey(folder: string, uuid: string, directory: string, stem: string, rest: string)
    requires stem != "" && NoSlash(stem) && NoSlash(rest) && '.' !in rest && stem + "." + rest != ".."
    ensures ObjectKey(folder, UniqueName(uuid, directory + "/" + (stem + "." + rest)))
         == folder + "/" + uuid + "." + ToLower(rest)
  {
    var name := stem + "." + rest;
    ExtNameExactly(stem, rest);
    ExtNameOfPath(directory, name);
    assert ToLower("." + rest) == "." + ToLower(rest);
  }

  /** A name without a dot after its first character has no extension, and neither has `..`. */
  lemma ExtNameNone(name: string)
    requires NoSlash(name) && (name == ".." || forall i | 1 <= i < |name| :: name[i] != '.')
    ensures ExtName(name) == ""
  {
    BaseNameOfName(name);
    LastDotInRange(name);
  }

  /** Directories and trailing slashes do not count. */
  lemma ExtNameOfPath(directory: string, name: string)
    requires NoSlash(name) && name != ""
    ensures ExtName(directory + "/" + name) == ExtName(name) && ExtName(name + "/") == ExtName(name)
  {
    var path := directory + "/" + name;
    BaseNameOfName(name);
    assert path[|path| - 1] == name[|name| - 1] && name[|name| - 1] in name;
    SplitConcat(directory, name);
    SplitName(name);
    assert BaseName(path) == name;
    assert (name + "/")[..|name|] == name;
  }

  lemma BaseNameOfName(name: string)
    requires NoSlash(name)
    ensures BaseName(name) == name
  {
    SplitName(name);
    assert |name| > 0 ==> name[|name| - 1] in name;
  }

  lemma {:induction false} LastDotIs(stem: string, rest: string)
    requires '.' !in rest
    ensures LastDot(stem + "." + rest) == Some(|stem|)
  {
    var s := stem + "." + rest;
    if |rest| > 0 {
      var n := |rest| - 1;
      assert s[|s| - 1] == rest[n] && rest[n] in rest && s[..|s| - 1] == stem + "." + rest[..n];
      LastDotIs(stem, rest[..n]);
    }
  }

  lemma ExtNameShape(path: string)
    ensures NoSlash(ExtName(path)) && (ExtName(path) != "" ==> ExtName(path)[0] == '.')
  {
    BaseNameNoSlash(path);
    LastDotInRange(BaseName(path));
  }

  /** `randomUUID()`: 36 characters, hexadecimal digits and dashes. */
  predicate IsUuid(s: string) { |s| == 36 && forall c | c in s :: FolderChar(c) }

  function UniqueName(uuid: string, originalName: string): string { uuid + ToLower(ExtName(originalName)) }

  function ObjectKey(folder: string, name: string): string { folder + "/" + name }

  /** Where `uploadFile` writes: `path.join` of the root, the folder and the generated name. */
  function UploadPath(dirs: seq<string>, folder: string, name: string): string {
    Resolve(Resolve(AbsolutePath(dirs) + "/" + folder) + "/" + name)
  }

  /** The extension fits the filename alphabet and the generated name its length. */
  predicate ExtensionFits(originalName: string) {
    var extension := ToLower(ExtName(originalName));
    36 + |extension| <= 255 && forall c | c in extension :: FilenameChar(c)
  }

  lemma UniqueNameIsName(uuid: string, originalName: string)
    requires IsUuid(uuid)
    ensures IsName(UniqueName(uuid, originalName))
    ensures SafeFilename(UniqueName(uuid, originalName)) <==> ExtensionFits(originalName)
  {
    ExtNameShape(originalName);
    var extension, name := ToLower(ExtName(originalName)), UniqueName(uuid, originalName);
    forall c | c in extension ensures c != '/' {
      var i :| 0 <= i < |extension| && extension[i] == c;
      assert ExtName(originalName)[i] in ExtName(originalName);
    }
    assert forall c | c in name :: c in uuid || c in extension;
    assert forall c | c in extension :: c in name;
  }

  lemma UploadPathIs(dirs: seq<string>, folder: string, name: string)
    requires AreNames(dirs) && SafeFolder(folder) && IsName(name)
    ensures UploadPath(dirs, folder, name) == AbsolutePath(dirs + [folder, name])
  {
    SafeFolderIsName(folder);
    ResolveBelow(dirs, folder);
    SplitName(folder);
    NormalizeNames([folder], dirs, []);
    assert [folder] + [] == [folder];
    var target := dirs + [folder];
    ResolveBelow(target, name);
    SplitName(name);
    NormalizeNames([name], target, []);
    assert [name] + [] == [name] && target + [name] == dirs + [folder, name];
  }

  /** The key of an upload leads back to the file written exactly when the extension fits and the root is not `/`. */
  lemma UploadReadableExactlyWhen(dirs: seq<string>, folder: string, uuid: string, originalName: string)
    requires AreNames(dirs) && SafeFolder(folder) && IsUuid(uuid)
    ensures var name := UniqueName(uuid, originalName);
      && (ResolveSafePath(dirs, ObjectKey(folder, name)).Some? <==> |dirs| > 0 && ExtensionFits(originalName))
      && (|dirs| > 0 && ExtensionFits(originalName) ==>
            ResolveSafePath(dirs, ObjectKey(folder, name)) == Some(UploadPath(dirs, folder, name)))
  {
    var name := UniqueName(uuid, originalName);
    UniqueNameIsName(uuid, originalName);
    SafeFolderIsName(folder);
    SplitConcat(folder, name);
    SplitName(folder);
    SplitName(name);
    LocalAcceptsExactly(dirs, ObjectKey(folder, name));
    UploadPathIs(dirs, folder, name);
  }

  /** It does fail: a file named `a.+` is stored under a key that no request can read. */
  lemma UnreadableUpload(dirs: seq<string>, folder: string, uuid: string)
    requires AreNames(dirs) && SafeFolder(folder) && IsUuid(uuid)
    ensures var key := ObjectKey(folder, UniqueName(uuid, "a.+"));
      key == folder + "/" + uuid + ".+" && ResolveSafePath(dirs, key).None?
  {
    SplitName("a.+");
    assert BaseName("a.+") == "a.+";
    assert "a.+"[..2] == "a.";
    assert ExtName("a.+") == ".+" && ToLower(".+") == ".+";
    assert '+' in ".+" by {
      assert ".+"[1] == '+';
    }
    UploadReadableExactlyWhen(dirs, folder, uuid, "a.+");
  }

  // ----- the local provider -----

  type Bytes = seq<bv8>

  datatype Response = BadRequest | NotFound | Failed | Deleted | Stored(key: string) | Content(bytes: Bytes)

  /** What a read of `key` answers when the disk holds `files`. */
  function Answer(dirs: seq<string>, files: map<string, Bytes>, key: string): Response {
    match ResolveSafePath(dirs, key)
    case None => BadRequest
    case Some(path) => if path in files then Content(files[path]) else NotFound
  }

  /** LocalStorageProvider over a disk seen as a map from paths to contents. */
  class LocalStorageProvider {
    const dirs: seq<string>
    var files: map<string, Bytes>

    constructor (dest: string)
      requires StartsWith(dest, "/")
      ensures AreNames(dirs) && AbsolutePath(dirs) == Resolve(dest) && files == map[]
    {
      dirs := ResolveNames(dest);
      files := map[];
      new;
      ResolveYieldsNames(dest);
    }

    method UploadFile(originalName: string, bytes: Bytes, folder: string, uuid: string) returns (r: Response)
      requires AreNames(dirs) && IsUuid(uuid)
      modifies this
      ensures !SafeFolder(folder) ==> r == BadRequest && files == old(files)
      ensures SafeFolder(folder) ==>
        && r == Stored(ObjectKey(folder, UniqueName(uuid, originalName)))
        && files == old(files)[AbsolutePath(dirs + [folder, UniqueName(uuid, originalName)]) := bytes]
        && files == LocalApply(dirs, old(files), Upload(originalName, bytes, folder, uuid))
        && Answer(dirs, files, r.key)
             == if |dirs| > 0 && ExtensionFits(originalName) then Content(bytes) else BadRequest
    {
      if !SafeFolder(folder) {
        r := BadRequest;
      } else {
        var uniqueName := uuid + ToLower(ExtName(originalName));
        var destinationPath := UploadPath(dirs, folder, uniqueName);
        UniqueNameIsName(uuid, originalName);
        UploadPathIs(dirs, folder, uniqueName);
        UploadReadableExactlyWhen(dirs, folder, uuid, originalName);
        files := files[destinationPath := bytes];
        r := Stored(ObjectKey(folder, uniqueName));
      }
    }

    method DeleteFile(key: string) returns (r: Response)
      requires AreNames(dirs)
      modifies this
      ensures r == if ResolveSafePath(dirs, key).Some? then Deleted else BadRequest
      ensures Answer(dirs, files, key) == if r == Deleted then NotFound else BadRequest
      ensures forall other | other != key :: Answer(dirs, files, other) == old(Answer(dirs, files, other))
      ensures files == LocalApply(dirs, old(files), Delete(key))
    {
      var path := ResolveSafePath(dirs, key);
      if path.None? {
        r := BadRequest;
      } else {
        forall other | other != key && ResolveSafePath(dirs, other) == path ensures false {
          KeysDoNotCollide(dirs, key, other);
        }
        files := files - {path.value};
        r := Deleted;
      }
    }

    method GetFile(key: string) returns (r: Response)
      ensures r == Answer(dirs, files, key)
    {
      var path := ResolveSafePath(dirs, key);
      if path.None? {
        r := BadRequest;
      } else if path.value in files {
        r := Content(files[path.value]);
      } else {
        r := NotFound;
      }
    }
  }

  // ----- the S3 provider, and one provider in place of the other -----

  function S3Answer(bucket: map<string, Bytes>, key: string): Response {
    if !S3Accepts(key) then BadRequest else if key in bucket then Content(bucket[key]) else NotFound
  }

  datatype StoreOp =
    | Upload(originalName: string, bytes: Bytes, folder: string, uuid: string)
    | Delete(key: string)

  /** The bucket after one request whose SDK call succeeds. */
  function S3Apply(bucket: map<string, Bytes>, op: StoreOp): map<string, Bytes> {
    match op
    case Upload(originalName, bytes, folder, uuid) =>
      if SafeFolder(folder) then bucket[ObjectKey(folder, UniqueName(uuid, originalName)) := bytes] else bucket
    case Delete(key) => if S3Accepts(key) then bucket - {key} else bucket
  }

  /** The disk after one request. */
  function LocalApply(dirs: seq<string>, files: map<string, Bytes>, op: StoreOp): map<string, Bytes> {
    match op
    case Upload(originalName, bytes, folder, uuid) =>
      if SafeFolder(folder) then files[UploadPath(dirs, folder, UniqueName(uuid, originalName)) := bytes] else files
    case Delete(key) =>
      var path := ResolveSafePath(dirs, key);
      if path.Some? then files - {path.value} else files
  }

  /** Every key the local provider accepts holds the same in both stores, and no `..` was ever stored. */
  ghost predicate Mirror(dirs: seq<string>, files: map<string, Bytes>, bucket: map<string, Bytes>) {
    && (forall key :: ResolveSafePath(dirs, key).Some? ==> Answer(dirs, files, key) == S3Answer(bucket, key))
    && (forall key :: S3Accepts(key) && Split(key)[1] == ".." ==> key !in bucket)
  }

  lemma DeleteKeepsMirror(dirs: seq<string>, files: map<string, Bytes>, bucket: map<string, Bytes>, key: string)
    requires AreNames(dirs) && |dirs| > 0 && Mirror(dirs, files, bucket)
    ensures Mirror(dirs, LocalApply(dirs, files, Delete(key)), S3Apply(bucket, Delete(key)))
  {
    LocalAcceptsExactly(dirs, key);
    forall other | ResolveSafePath(dirs, other).Some?
      ensures Answer(dirs, LocalApply(dirs, files, Delete(key)), other) == S3Answer(S3Apply(bucket, Delete(key)), other)
    {
      assert Answer(dirs, files, other) == S3Answer(bucket, other);
      LocalAcceptsExactly(dirs, other);
      if ResolveSafePath(dirs, other) == ResolveSafePath(dirs, key) {
        KeysDoNotCollide(dirs, other, key);
      }
    }
  }

  lemma UploadKeepsMirror(dirs: seq<string>, files: map<string, Bytes>, bucket: map<string, Bytes>, op: StoreOp)
    requires AreNames(dirs) && |dirs| > 0 && Mirror(dirs, files, bucket)
    requires op.Upload? && IsUuid(op.uuid) && SafeFolder(op.folder)
    ensures Mirror(dirs, LocalApply(dirs, files, op), S3Apply(bucket, op))
  {
    var name := UniqueName(op.uuid, op.originalName);
    var uploaded := ObjectKey(op.folder, name);
    UniqueNameIsName(op.uuid, op.originalName);
    UploadPathIs(dirs, op.folder, name);
    SafeFolderIsName(op.folder);
    SplitConcat(op.folder, name);
    SplitName(op.folder);
    SplitName(name);
    assert Split(uploaded) == [op.folder, name];
    forall other | ResolveSafePath(dirs, other).Some?
      ensures Answer(dirs, LocalApply(dirs, files, op), other) == S3Answer(S3Apply(bucket, op), other)
    {
      assert Answer(dirs, files, other) == S3Answer(bucket, other);
      LocalAcceptsExactly(dirs, other);
      SamePathSameKey(dirs, op.folder, name, other);
    }
  }

  /** The file an upload writes is the file of no accepted key but its own. */
  lemma SamePathSameKey(dirs: seq<string>, folder: string, name: string, other: string)
    requires AreNames(dirs) && SafeFolder(folder) && IsName(name) && ResolveSafePath(dirs, other).Some?
    ensures ResolveSafePath(dirs, other) == Some(AbsolutePath(dirs + [folder, name]))
       <==> other == ObjectKey(folder, name)
  {
    LocalAcceptsExactly(dirs, other);
    var f, n := Split(other)[0], Split(other)[1];
    SafeFolderIsName(folder);
    SafeFolderIsName(f);
    SafeFilenameNoSlash(n);
    SplitConcat(folder, name);
    SplitName(folder);
    SplitName(name);
    if AbsolutePath(Below(dirs, f, n)) == AbsolutePath(dirs + [folder, name]) {
      AbsolutePathInjective(Below(dirs, f, n), dirs + [folder, name]);
      assert Below(dirs, f, n)[|dirs|] == f && (dirs + [folder, name])[|dirs|] == folder;
      assert Below(dirs, f, n)[|dirs| + 1] == n && (dirs + [folder, name])[|dirs| + 1] == name;
      assert Split(other) == [f, n];
      JoinSplit(other);
    }
  }

  function LocalRun(dirs: seq<string>, files: map<string, Bytes>, ops: seq<StoreOp>): map<string, Bytes>
    decreases |ops|
  {
    if |ops| == 0 then files else LocalRun(dirs, LocalApply(dirs, files, ops[0]), ops[1..])
  }

  function S3Run(bucket: map<string, Bytes>, ops: seq<StoreOp>): map<string, Bytes>
    decreases |ops|
  {
    if |ops| == 0 then bucket else S3Run(S3Apply(bucket, ops[0]), ops[1..])
  }

  lemma {:induction false} RunsKeepMirror(dirs: seq<string>, files: map<string, Bytes>,
                                          bucket: map<string, Bytes>, ops: seq<StoreOp>)
    requires AreNames(dirs) && |dirs| > 0 && Mirror(dirs, files, bucket)
    requires forall op | op in ops :: op.Upload? ==> IsUuid(op.uuid)
    ensures Mirror(dirs, LocalRun(dirs, files, ops), S3Run(bucket, ops))
    decreases |ops|
  {
    if |ops| > 0 {
      var op := ops[0];
      assert op in ops;
      if op.Delete? {
        DeleteKeepsMirror(dirs, files, bucket, op.key);
      } else if SafeFolder(op.folder) {
        UploadKeepsMirror(dirs, files, bucket, op);
      }
      RunsKeepMirror(dirs, LocalApply(dirs, files, op), S3Apply(bucket, op), ops[1..]);
    }
  }

  /**
   * One provider can stand in for the other: after the same uploads and deletions from
   * empty stores, every key reads the same from both, except that a key named `..` is
   * malformed to one and merely missing to the other.
   */
  lemma ProvidersAgree(dirs: seq<string>, ops: seq<StoreOp>, key: string)
    requires AreNames(dirs) && |dirs| > 0
    requires forall op | op in ops :: op.Upload? ==> IsUuid(op.uuid)
    ensures var local, s3 := Answer(dirs, LocalRun(dirs, map[], ops), key), S3Answer(S3Run(map[], ops), key);
      if S3Accepts(key) && Split(key)[1] == ".." then local == BadRequest && s3 == NotFound else local == s3
  {
    forall k | ResolveSafePath(dirs, k).Some? ensures Answer(dirs, map[], k) == S3Answer(map[], k) {
      LocalAcceptsExactly(dirs, k);
    }
    RunsKeepMirror(dirs, map[], map[], ops);
    LocalAcceptsExactly(dirs, key);
  }

  /** S3StorageProvider over a bucket seen as a map from keys to contents; `up` says the SDK call succeeds. */
  class S3StorageProvider {
    var bucket: map<string, Bytes>

    constructor ()
      ensures bucket == map[]
    {
      bucket := map[];
    }

    method UploadFile(originalName: string, bytes: Bytes, folder: string, uuid: string, up: bool) returns (r: Response)
      modifies this
      ensures bucket == if up then S3Apply(old(bucket), Upload(originalName, bytes, folder, uuid)) else old(bucket)
      ensures r == if !SafeFolder(folder) then BadRequest
                   else if up then Stored(ObjectKey(folder, UniqueName(uuid, originalName))) else Failed
    {
      if !SafeFolder(folder) {
        r := BadRequest;
      } else {
        var objectKey := ObjectKey(folder, UniqueName(uuid, originalName));
        if up {
          bucket := bucket[objectKey := bytes];
          r := Stored(objectKey);
        } else {
          r := Failed;
        }
      }
    }

    method DeleteFile(key: string, up: bool) returns (r: Response)
      modifies this
      ensures bucket == if up then S3Apply(old(bucket), Delete(key)) else old(bucket)
      ensures r == if !S3Accepts(key) then BadRequest else if up then Deleted else Failed
    {
      if !S3Accepts(key) {
        r := BadRequest;
      } else if up {
        bucket := bucket - {key};
        r := Deleted;
      } else {
        r := Failed;
      }
    }
  }
}
