/**
  The provisioner's two controller callbacks, Provision and Delete, acting on
  the NFS export mounted at /persistentvolumes.

  The export is modelled as the set of directory paths that exist at or
  below the mount; every filesystem call may fail, and a failure is chosen by the
  environment (a nondeterministic outcome), never by the model.
 */
module Lifecycle {
  import opened Wrappers
  import opened GoText
  import opened GoFilepath
  import opened KubeObjects
  import opened DeletePolicy
  import opened PathTemplate

  /** Where the NFS export is mounted inside the provisioner's container. */
  const MountPath := "/persistentvolumes"
  const MountName := "persistentvolumes"
  const ArchivePrefix := "archived-"

  // ---------------------------------------------------------------------
  // Directory trees

  /** d is the path p or lies below it. */
  predicate Below(d: string, p: string) {
    d == p || HasPrefix(d, p + "/")
  }

  /** The directories left once the tree at p is removed. */
  function Without(dirs: set<string>, p: string): (r: set<string>)
    ensures forall d :: d in r <==> d in dirs && !Below(d, p)
  {
    set d | d in dirs && !Below(d, p)
  }

  /** The directories after the tree at `from` is renamed to `to`. */
  function Moved(dirs: set<string>, from: string, to: string): set<string> {
    Without(Without(dirs, from), to) + set d | d in dirs && Below(d, from) :: to + d[|from|..]
  }

  /** The directory p and its ancestors down to depth k: what MkdirAll has
      made once it has created k levels. */
  function PathsUpTo(p: string, k: nat): set<string>
    requires k <= |Elements(p)|
  {
    set j | 1 <= j <= k :: Render(Rooted(p), Elements(p)[..j])
  }

  /** p and every ancestor of it. */
  function PathsTo(p: string): set<string> {
    PathsUpTo(p, |Elements(p)|)
  }

  /** The directories of the export as the provisioner sees them through
      the mount. */
  class FileSystem {
    var dirs: set<string>

    constructor(initial: set<string>)
      ensures dirs == initial
    {
      dirs := initial;
    }

    /** os.Stat followed by os.IsNotExist. */
    function Exists(path: string): bool
      reads this
    {
      path in dirs
    }

    /** os.MkdirAll: creates p and its missing ancestors, top down; a failure
        may leave the upper levels created. */
    method MkdirAll(p: string) returns (ok: bool)
      modifies this
      ensures ok ==> dirs == old(dirs) + PathsTo(p)
      ensures !ok ==> exists k :: 0 <= k <= |Elements(p)| && dirs == old(dirs) + PathsUpTo(p, k)
    {
      ok := *;
      if ok {
        dirs := dirs + PathsTo(p);
      } else {
        var k: int := *;
        if !(0 <= k <= |Elements(p)|) {
          k := 0;
        }
        dirs := dirs + PathsUpTo(p, k);
      }
    }

    /** os.Chmod: changes no directory; fails at least when p is missing. */
    method Chmod(p: string) returns (ok: bool)
      modifies this
      ensures dirs == old(dirs)
      ensures ok ==> p in dirs
    {
      ok := *;
      if p !in dirs {
        ok := false;
      }
    }

    /** os.RemoveAll: removes the tree at p. */
    method RemoveAll(p: string) returns (ok: bool)
      modifies this
      ensures ok ==> dirs == Without(old(dirs), p)
      ensures !ok ==> dirs == old(dirs)
    {
      ok := *;
      if ok {
        dirs := Without(dirs, p);
      }
    }

    /** os.Rename of a directory: moves the tree at `from` to `to`.  It
        fails, changing nothing, when `from` is missing, when either path lies
        inside the other, or when `to` already exists as a directory (empty or
        not): Go's Rename only replaces a target that is not a directory. */
    method Rename(from: string, to: string) returns (ok: bool)
      modifies this
      ensures ok ==> from in old(dirs) && !Below(to, from) && !Below(from, to)
      ensures ok ==> forall d :: d in old(dirs) ==> !Below(d, to)
      ensures ok ==> dirs == Moved(old(dirs), from, to)
      ensures !ok ==> dirs == old(dirs)
    {
      ok := *;
      if from !in dirs || Below(to, from) || Below(from, to) || exists d :: d in dirs && Below(d, to) {
        ok := false;
      }
      if ok {
        dirs := Moved(dirs, from, to);
      }
    }
  }

  // ---------------------------------------------------------------------
  // Provision

  /** controller.ProvisioningState. */
  datatype ProvisioningState =
    | ProvisioningFinished
    | ProvisioningInBackground
    | ProvisioningNoChange
    | ProvisioningReschedule

  datatype ProvisionError =
    | SelectorNotSupported
    | CreateFailed(path: string)
    | PermissionFailed(path: string)
    | ProvisionPolicyFailed(cause: PolicyError)

  /** The directory name used when no usable pathPattern is given:
      `<namespace>-<name>-<PV name>`. */
  function DefaultOffset(options: ProvisionOptions): string {
    options.pvc.namespace + "-" + options.pvc.name + "-" + options.pvName
  }

  /** The guard on an expanded pathPattern: trim it, clean it, drop one
      leading '/', and refuse "", "." and anything starting with "..";
      None means the default directory name is used instead. */
  function CustomOffset(expanded: string): Option<string> {
    var trimmed := TrimSpace(expanded);
    if trimmed == "" then None
    else
      var cleaned := Clean(trimmed);
      var relative := if IsAbs(cleaned) then cleaned[1..] else cleaned;
      if relative == "" || relative == "." || HasPrefix(relative, "..") then None
      else Some(relative)
  }

  /** The directory, relative to the export root, that Provision uses. */
  function Offset(options: ProvisionOptions): string
    requires options.storageClass.Some?
  {
    var parameters := options.storageClass.value.parameters;
    if PathPatternParameter in parameters then
      match CustomOffset(Substitute(MetadataOf(options.pvc), parameters[PathPatternParameter]))
      case Some(custom) => custom
      case None => DefaultOffset(options)
    else DefaultOffset(options)
  }

  /** The path the volume reports to clients (below the export root). */
  function NfsPathFor(p: Provisioner, options: ProvisionOptions): string
    requires options.storageClass.Some?
  {
    Join(p.path, Offset(options))
  }

  /** The path of the same directory through the provisioner's mount. */
  function FullPathFor(options: ProvisionOptions): string
    requires options.storageClass.Some?
  {
    Join(MountPath, Offset(options))
  }

  /** The volume Provision returns.  The class name is left empty: the
      controller library fills it in after Provision returns. */
  function ProvisionedVolume(p: Provisioner, options: ProvisionOptions, o: DeleteOptions): PersistentVolume
    requires options.storageClass.Some?
  {
    PersistentVolume(options.pvName, PersistedAnnotations(o), p.server, NfsPathFor(p, options), "")
  }

  /** nfsProvisioner.Provision.  The claim's class must be set (the source
      dereferences it). */
  method Provision(fs: FileSystem, p: Provisioner, options: ProvisionOptions)
    returns (r: Result<PersistentVolume, ProvisionError>, state: ProvisioningState)
    requires options.storageClass.Some?
    modifies fs
    ensures state == ProvisioningFinished
    ensures r == Err(SelectorNotSupported) <==> options.pvc.hasSelector
    ensures options.pvc.hasSelector ==> fs.dirs == old(fs.dirs)
    ensures r.Ok? ==>
      && ResolveForProvision(p, options).Ok?
      && r.value == ProvisionedVolume(p, options, ResolveForProvision(p, options).value)
      && fs.dirs == old(fs.dirs) + PathsTo(FullPathFor(options))
    ensures !options.pvc.hasSelector && ResolveForProvision(p, options).Err? ==> r.Err?
    ensures r.Err? && r.error.ProvisionPolicyFailed? ==> ResolveForProvision(p, options) == Err(r.error.cause)
    ensures r.Err? && r.error.CreateFailed? ==>
      r.error.path == FullPathFor(options) && old(fs.dirs) <= fs.dirs <= old(fs.dirs) + PathsTo(FullPathFor(options))
    ensures r.Err? && r.error.PermissionFailed? ==> r.error.path == FullPathFor(options)
    ensures r.Err? && (r.error.PermissionFailed? || r.error.ProvisionPolicyFailed?) ==>
      var made := old(fs.dirs) + PathsTo(FullPathFor(options));
      fs.dirs == made || fs.dirs == Without(made, FullPathFor(options))
  {
    state := ProvisioningFinished;
    if options.pvc.hasSelector {
      r := Err(SelectorNotSupported);
      return;
    }
    var pvName := DefaultOffset(options);
    var metadata := MetadataOf(options.pvc);
    var fullPath := Join(MountPath, pvName);
    var path := Join(p.path, pvName);

    var parameters := options.storageClass.value.parameters;
    if PathPatternParameter in parameters {
      var expanded := StringParser(metadata, parameters[PathPatternParameter]);
      var customPath := CustomOffset(expanded);
      if customPath.Some? {
        path := Join(p.path, customPath.value);
        fullPath := Join(MountPath, customPath.value);
      }
    }
    assert fullPath == FullPathFor(options) && path == NfsPathFor(p, options);

    var made := fs.MkdirAll(fullPath);
    if !made {
      r := Err(CreateFailed(fullPath));
      PathsUpToGrow(fullPath);
      return;
    }
    var permitted := fs.Chmod(fullPath);
    if !permitted {
      var _ := fs.RemoveAll(fullPath);
      r := Err(PermissionFailed(fullPath));
      return;
    }
    var resolved := ResolveForProvision(p, options);
    if resolved.Err? {
      var _ := fs.RemoveAll(fullPath);
      r := Err(ProvisionPolicyFailed(resolved.error));
      return;
    }
    var annotations := PersistedAnnotations(resolved.value);
    r := Ok(PersistentVolume(options.pvName, annotations, p.server, path, ""));
  }

  lemma PathsUpToGrow(p: string)
    ensures forall k :: 0 <= k <= |Elements(p)| ==> PathsUpTo(p, k) <= PathsTo(p)
  {
  }

  /** The cleanup after a failed Chmod or policy resolution removes the whole
      tree at the full path, including a directory, and anything below it,
      that existed before Provision was called (two claims whose pathPattern
      expands to the same offset share that directory). */
  lemma CleanupRemovesExisting(dirs: set<string>, fullPath: string, inside: string)
    requires inside in dirs && Below(inside, fullPath)
    ensures inside !in Without(dirs + PathsTo(fullPath), fullPath)
    ensures Without(dirs + PathsTo(fullPath), fullPath) < dirs + PathsTo(fullPath)
  {
  }

  // ---------------------------------------------------------------------
  // Delete

  datatype DeleteError =
    | RelFailed(path: string)
    | OutsideRoot(path: string, serverPath: string)
    | NoClient
    | NoClassName
    | LookupFailed(reason: string)
    | DeletePolicyFailed(cause: PolicyError)
    | RemoveFailed(path: string)
    | RenameFailed(from: string, to: string)

  /** The directory, through the mount, that holds a volume whose NFS path
      is nfsPath: the offset of the cleaned path from the cleaned export
      root, refused when Rel fails or when it climbs out with "..". */
  function DeleteTarget(root: string, nfsPath: string): Result<string, DeleteError> {
    var path := Clean(nfsPath);
    var serverPath := Clean(root);
    match Rel(serverPath, path)
    case None => Err(RelFailed(path))
    case Some(rel) =>
      if HasPrefix(rel, "..") then Err(OutsideRoot(path, serverPath))
      else Ok(Join(MountPath, rel))
  }

  /** Where an archived volume's directory goes. */
  function ArchivePath(nfsPath: string): string {
    Join(MountPath, ArchivePrefix + Base(Clean(nfsPath)))
  }

  /** getClassForVolume: the class named by the volume, looked up through the
      client; `lookup` is what the API server answers.  A missing client, an
      empty class name and a failed lookup are all errors. */
  function GetClassForVolume(hasClient: bool, className: string, lookup: Result<StorageClass, string>): (r: Result<StorageClass, DeleteError>)
    ensures r.Ok? <==> hasClient && className != "" && lookup.Ok?
    ensures r.Ok? ==> r.value == lookup.value
  {
    if !hasClient then Err(NoClient)
    else if className == "" then Err(NoClassName)
    else match lookup
      case Ok(c) => Ok(c)
      case Err(reason) => Err(LookupFailed(reason))
  }

  /** What happens to the directory of a volume being deleted. */
  datatype Action = RemoveDir | KeepDir | ArchiveDir

  /** The mapping from the resolved options to an action: onDelete decides
      when set; otherwise archiveOnDelete=false removes, and true or unset
      archives. */
  function Disposition(o: DeleteOptions): (a: Action)
    ensures a == KeepDir <==> o.onDelete == "retain"
    ensures a == RemoveDir <==> o.onDelete == "delete" || (o.onDelete != "retain" && o.archiveOnDelete == Some(false))
    ensures a == ArchiveDir <==> o.onDelete != "delete" && o.onDelete != "retain" && o.archiveOnDelete != Some(false)
  {
    if o.onDelete == "delete" then RemoveDir
    else if o.onDelete == "retain" then KeepDir
    else if o.archiveOnDelete.Some? && !o.archiveOnDelete.value then RemoveDir
    else ArchiveDir
  }

  /** What Delete sets out to do, decided before any filesystem change. */
  datatype Plan =
    | Fail(error: DeleteError)
    | Skip
    | Keep
    | Remove(path: string)
    | Archive(from: string, to: string)

  function DeletePlan(p: Provisioner, volume: PersistentVolume, dirs: set<string>, lookup: Result<StorageClass, string>): Plan {
    match DeleteTarget(p.path, volume.nfsPath)
    case Err(e) => Fail(e)
    case Ok(oldPath) =>
      if oldPath !in dirs then Skip
      else match GetClassForVolume(p.hasClient, volume.className, lookup)
        case Err(e) => Fail(e)
        case Ok(storageClass) =>
          match ResolveForVolume(p, volume, Some(storageClass))
          case Err(e) => Fail(DeletePolicyFailed(e))
          case Ok(o) =>
            match Disposition(o)
            case RemoveDir => Remove(oldPath)
            case KeepDir => Keep
            case ArchiveDir => Archive(oldPath, ArchivePath(volume.nfsPath))
  }

  /** nfsProvisioner.Delete; `lookup` is the API server's answer to the
      class lookup, consulted only if the directory exists. */
  method Delete(fs: FileSystem, p: Provisioner, volume: PersistentVolume, lookup: Result<StorageClass, string>)
    returns (err: Option<DeleteError>)
    modifies fs
    ensures DeletePlan(p, volume, old(fs.dirs), lookup).Fail? ==>
      err == Some(DeletePlan(p, volume, old(fs.dirs), lookup).error) && fs.dirs == old(fs.dirs)
    ensures DeletePlan(p, volume, old(fs.dirs), lookup) in {Skip, Keep} ==> err.None? && fs.dirs == old(fs.dirs)
    ensures DeletePlan(p, volume, old(fs.dirs), lookup).Remove? ==>
      var path := DeletePlan(p, volume, old(fs.dirs), lookup).path;
      (err.None? && fs.dirs == Without(old(fs.dirs), path))
      || (err == Some(RemoveFailed(path)) && fs.dirs == old(fs.dirs))
    ensures DeletePlan(p, volume, old(fs.dirs), lookup).Archive? ==>
      var from := DeletePlan(p, volume, old(fs.dirs), lookup).from;
      var to := DeletePlan(p, volume, old(fs.dirs), lookup).to;
      (err.None? && fs.dirs == Moved(old(fs.dirs), from, to) && !Below(to, from) && !Below(from, to)
        && forall d :: d in old(fs.dirs) ==> !Below(d, to))
      || (err == Some(RenameFailed(from, to)) && fs.dirs == old(fs.dirs))
  {
    var path := Clean(volume.nfsPath);
    var basePath := Base(path);
    var serverPath := Clean(p.path);
    var relPath := Rel(serverPath, path);
    if relPath.None? {
      return Some(RelFailed(path));
    }
    if HasPrefix(relPath.value, "..") {
      return Some(OutsideRoot(path, serverPath));
    }
    var oldPath := Join(MountPath, relPath.value);
    if !fs.Exists(oldPath) {
      return None;
    }
    var storageClass := GetClassForVolume(p.hasClient, volume.className, lookup);
    if storageClass.Err? {
      return Some(storageClass.error);
    }
    var resolved := ResolveForVolume(p, volume, Some(storageClass.value));
    if resolved.Err? {
      return Some(DeletePolicyFailed(resolved.error));
    }
    var onDelete := resolved.value.onDelete;
    var archiveOnDelete := resolved.value.archiveOnDelete;
    if onDelete == "delete" {
      var ok := fs.RemoveAll(oldPath);
      return if ok then None else Some(RemoveFailed(oldPath));
    }
    if onDelete == "retain" {
      return None;
    }
    if archiveOnDelete.Some? && !archiveOnDelete.value {
      var ok := fs.RemoveAll(oldPath);
      return if ok then None else Some(RemoveFailed(oldPath));
    }
    var archivePath := Join(MountPath, ArchivePrefix + basePath);
    var ok := fs.Rename(oldPath, archivePath);
    return if ok then None else Some(RenameFailed(oldPath, archivePath));
  }

  // ---------------------------------------------------------------------
  // Lemmas: where directories go

  /** The mount root is a clean absolute path with one element. */
  lemma MountPathClean()
    ensures Render(true, [MountName]) == MountPath
    ensures CleanStack([MountName], true)
    ensures Elements(MountPath) == [MountName] && Rooted(MountPath) && Clean(MountPath) == MountPath
  {
    var n := MountName;
    assert |n| == 17 && n[0] == 'p' && n[1] == 'e';
    assert forall k :: 0 <= k < |n| ==> n[k] != '/';
    assert IsName(n);
    assert CleanStack([n], true);
    assert JoinSegs([n]) == n;
    assert Render(true, [n]) == MountPath;
    CleanRender(true, [n]);
  }

  /** Joining a path of names onto the mount root lands strictly below it. */
  lemma {:induction false} JoinMountNames(names: seq<string>)
    requires names != [] && AllNames(names)
    ensures Join(MountPath, JoinSegs(names)) == MountPath + "/" + JoinSegs(names)
  {
    JoinMountElements(names);
    RenderBelowMount(names);
  }

  lemma JoinMountElements(names: seq<string>)
    requires names != [] && AllNames(names)
    ensures Join(MountPath, JoinSegs(names)) == Render(true, [MountName] + names)
  {
    MountPathClean();
    JoinNames(MountPath, names);
  }

  lemma RenderBelowMount(names: seq<string>)
    requires names != []
    ensures Render(true, [MountName] + names) == MountPath + "/" + JoinSegs(names)
  {
    var all := [MountName] + names;
    assert all[0] == MountName && all[1..] == names && |all| > 1;
    assert JoinSegs(all) == MountName + "/" + JoinSegs(names);
    MountPathIsRootedName();
    assert "/" + (MountName + "/" + JoinSegs(names)) == ("/" + MountName) + "/" + JoinSegs(names);
  }

  lemma MountPathIsRootedName()
    ensures MountPath == "/" + MountName
  {
  }

  /** A guarded pathPattern is a non-empty path of plain names: never empty,
      never ".", never absolute and never climbing out with "..". */
  lemma {:induction false} CustomOffsetNames(expanded: string) returns (names: seq<string>)
    requires CustomOffset(expanded).Some?
    ensures names != [] && AllNames(names) && CustomOffset(expanded).value == JoinSegs(names)
    ensures !IsAbs(CustomOffset(expanded).value) && !HasPrefix(CustomOffset(expanded).value, "..")
  {
    var trimmed := TrimSpace(expanded);
    var st := Elements(trimmed);
    ElementsClean(trimmed);
    var cleaned := Clean(trimmed);
    names := st;
    if Rooted(trimmed) {
      assert IsAbs(cleaned);
      assert cleaned[1..] == JoinSegs(st);
    } else {
      JoinSegsFirst(st);
      JoinSegsPrefix(st);
      CleanTailNames(st, false, 0);
      assert st[0..] == st;
    }
    var offset := CustomOffset(expanded).value;
    JoinSegsFirst(names);
  }

  /** The claim-derived default name `<namespace>-<name>-<PV name>` is a
      single plain name when none of its parts holds a '/' and it does not
      start with "..", as Kubernetes object names guarantee. */
  predicate PlainDefault(options: ProvisionOptions) {
    '/' !in DefaultOffset(options) && !HasPrefix(DefaultOffset(options), "..")
  }

  /** The offset Provision settles on is a path of plain names: the guarded
      pattern, or else the default name. */
  lemma {:induction false} OffsetNames(options: ProvisionOptions) returns (names: seq<string>)
    requires options.storageClass.Some? && PlainDefault(options)
    ensures names != [] && AllNames(names) && Offset(options) == JoinSegs(names)
    ensures !HasPrefix(Offset(options), "..")
  {
    var parameters := options.storageClass.value.parameters;
    if PathPatternParameter in parameters && CustomOffset(Substitute(MetadataOf(options.pvc), parameters[PathPatternParameter])).Some? {
      names := CustomOffsetNames(Substitute(MetadataOf(options.pvc), parameters[PathPatternParameter]));
    } else {
      var name := DefaultOffset(options);
      assert |name| >= 2;
      names := [name];
    }
  }

  /** The directory Provision creates lies strictly below the mount root. */
  lemma {:induction false} FullPathBelowMount(options: ProvisionOptions)
    requires options.storageClass.Some? && PlainDefault(options)
    ensures FullPathFor(options) == MountPath + "/" + Offset(options)
    ensures Below(FullPathFor(options), MountPath) && FullPathFor(options) != MountPath
  {
    var names := OffsetNames(options);
    JoinMountNames(names);
  }

  /** The NFS path and the mount path of a provisioned volume share their
      offset: Delete maps the volume's NFS path back to exactly the
      directory Provision created. */
  lemma {:induction false} OffsetRoundTrip(p: Provisioner, options: ProvisionOptions)
    requires options.storageClass.Some? && PlainDefault(options)
    ensures DeleteTarget(p.path, NfsPathFor(p, options)) == Ok(FullPathFor(options))
  {
    var names := OffsetNames(options);
    var rooted := Rooted(p.path);
    var dir := Elements(p.path);
    ElementsClean(p.path);
    JoinNames(p.path, names);
    CleanStackNames(dir, names, rooted);
    CleanRender(rooted, dir + names);
    RelBelow(rooted, dir, names);
  }

  /** A cleaned path of names below any root: it is its own Clean, and its
      Base is the last name. */
  lemma {:induction false} NfsPathOfNames(root: string, names: seq<string>)
    requires names != [] && AllNames(names)
    ensures Clean(Join(root, JoinSegs(names))) == Join(root, JoinSegs(names))
    ensures Base(Join(root, JoinSegs(names))) == names[|names| - 1]
  {
    var rooted := Rooted(root);
    var st := Elements(root) + names;
    JoinNames(root, names);
    StackOfNames(root, names);
    CleanRender(rooted, st);
    BaseRender(rooted, st);
  }

  lemma StackOfNames(root: string, names: seq<string>)
    requires names != [] && AllNames(names)
    ensures CleanStack(Elements(root) + names, Rooted(root))
    ensures (Elements(root) + names)[|Elements(root) + names| - 1] == names[|names| - 1]
  {
    ElementsClean(root);
    CleanStackNames(Elements(root), names, Rooted(root));
  }

  /** "archived-" followed by a piece without '/' is a single name. */
  lemma ArchivedName(piece: string)
    requires '/' !in piece
    ensures IsName(ArchivePrefix + piece)
    ensures Join(MountPath, ArchivePrefix + piece) == MountPath + "/" + ArchivePrefix + piece
  {
    var archived := ArchivePrefix + piece;
    assert archived[0] == 'a';
    assert forall i :: 0 <= i < |piece| ==> archived[|ArchivePrefix| + i] == piece[i];
    assert IsName(archived);
    JoinMountNames([archived]);
    assert JoinSegs([archived]) == archived;
  }

  /** A volume whose path cleans to the root "/" is archived to
      /persistentvolumes/archived-: Base gives "/" there. */
  lemma ArchivedRoot(nfsPath: string)
    requires Clean(nfsPath) == "/"
    ensures ArchivePath(nfsPath) == MountPath + "/" + ArchivePrefix
  {
    assert Base("/") == "/";
    ArchivedRootJoin();
  }

  lemma ArchivedRootJoin()
    ensures Join(MountPath, ArchivePrefix + "/") == MountPath + "/" + ArchivePrefix
  {
    JoinTrailingSlash(MountPath, ArchivePrefix);
    ArchivedName("");
    assert ArchivePrefix + "" == ArchivePrefix;
  }

  /** A provisioned volume is archived to `archived-<last name of its
      offset>` directly below the mount root. */
  lemma {:induction false} ArchiveOfProvisioned(p: Provisioner, options: ProvisionOptions) returns (names: seq<string>)
    requires options.storageClass.Some? && PlainDefault(options)
    ensures names != [] && AllNames(names) && Offset(options) == JoinSegs(names)
    ensures ArchivePath(NfsPathFor(p, options)) == MountPath + "/" + ArchivePrefix + names[|names| - 1]
  {
    names := OffsetNames(options);
    NfsPathOfNames(p.path, names);
    ArchivedName(names[|names| - 1]);
  }

  /** The archive directory is always strictly below the mount root. */
  lemma {:induction false} ArchivePathBelowMount(nfsPath: string)
    ensures HasPrefix(ArchivePath(nfsPath), MountPath + "/")
  {
    var base := Base(Clean(nfsPath));
    BaseShape(Clean(nfsPath));
    if base == "/" {
      ArchivedRootJoin();
    } else {
      ArchivedName(base);
    }
  }

  /** Base returns "/" or a piece without '/'. */
  lemma BaseShape(p: string)
    ensures Base(p) == "/" || '/' !in Base(p)
  {
    if p != "" {
      var q := StripTrailingSlashes(p);
      if q != "" {
        SplitNoSlashes(q);
      }
    }
  }

  lemma JoinMountDot()
    ensures Join(MountPath, ".") == MountPath
  {
    MountPathClean();
    JoinDot(MountPath);
  }

  /** A volume whose NFS path is the export root itself maps to the whole
      mount root: Delete's guard lets the offset "." through. */
  lemma {:induction false} ExportRootMapsToMountRoot(p: Provisioner, volume: PersistentVolume)
    requires Clean(volume.nfsPath) == Clean(p.path)
    ensures DeleteTarget(p.path, volume.nfsPath) == Ok(MountPath)
  {
    CleanIdempotent(p.path);
    CleanIdempotent(volume.nfsPath);
    RelSelf(Clean(p.path), Clean(volume.nfsPath));
    JoinMountDot();
  }

  /** The directory Delete maps a volume to is the mount root or below it. */
  lemma {:induction false} DeleteTargetBelowMount(root: string, nfsPath: string)
    requires DeleteTarget(root, nfsPath).Ok?
    ensures Below(DeleteTarget(root, nfsPath).value, MountPath)
  {
    var path := Clean(nfsPath);
    var serverPath := Clean(root);
    var rel := Rel(serverPath, path).value;
    var names := RelWithoutDotDot(serverPath, path, rel);
    if rel == "." {
      JoinMountDot();
    } else if names == [] {
      MountPathClean();
      JoinEmpty(MountPath);
    } else {
      JoinMountNames(names);
    }
  }

  /** Whatever Delete touches lies at or below the mount root, and an archive
      goes strictly below it. */
  lemma {:induction false} DeleteStaysInside(p: Provisioner, volume: PersistentVolume, dirs: set<string>, lookup: Result<StorageClass, string>)
    ensures DeletePlan(p, volume, dirs, lookup).Remove? ==> Below(DeletePlan(p, volume, dirs, lookup).path, MountPath)
    ensures DeletePlan(p, volume, dirs, lookup).Archive? ==>
      Below(DeletePlan(p, volume, dirs, lookup).from, MountPath) && HasPrefix(DeletePlan(p, volume, dirs, lookup).to, MountPath + "/")
  {
    ArchivePathBelowMount(volume.nfsPath);
    if DeleteTarget(p.path, volume.nfsPath).Ok? {
      DeleteTargetBelowMount(p.path, volume.nfsPath);
    }
  }

  /** When the volume's directory is already gone, Delete succeeds without
      consulting the client or the class. */
  lemma AbsentDirectorySkipsLookup(p: Provisioner, volume: PersistentVolume, dirs: set<string>, lookup: Result<StorageClass, string>, hasClient: bool)
    requires DeleteTarget(p.path, volume.nfsPath).Ok? && DeleteTarget(p.path, volume.nfsPath).value !in dirs
    ensures DeletePlan(p, volume, dirs, lookup) == Skip
    ensures DeletePlan(p.(hasClient := hasClient), volume, dirs, lookup) == Skip
  {
  }

  /** Delete is idempotent: once the directory has been removed or archived,
      deleting the same volume again changes nothing and succeeds. */
  lemma {:induction false} DeleteIdempotent(p: Provisioner, volume: PersistentVolume, dirs: set<string>, lookup: Result<StorageClass, string>, lookup2: Result<StorageClass, string>)
    ensures DeletePlan(p, volume, dirs, lookup).Remove? ==>
      DeletePlan(p, volume, Without(dirs, DeletePlan(p, volume, dirs, lookup).path), lookup2) == Skip
    ensures DeletePlan(p, volume, dirs, lookup).Archive? && !Below(DeletePlan(p, volume, dirs, lookup).from, DeletePlan(p, volume, dirs, lookup).to) ==>
      DeletePlan(p, volume, Moved(dirs, DeletePlan(p, volume, dirs, lookup).from, DeletePlan(p, volume, dirs, lookup).to), lookup2) == Skip
  {
    var plan := DeletePlan(p, volume, dirs, lookup);
    PlanActsOnTarget(p, volume, dirs, lookup);
    if plan.Remove? {
      AbsentDirectorySkipsLookup(p, volume, Without(dirs, plan.path), lookup2, p.hasClient);
    }
    if plan.Archive? && !Below(plan.from, plan.to) {
      MovedLeavesSource(dirs, plan.from, plan.to);
      AbsentDirectorySkipsLookup(p, volume, Moved(dirs, plan.from, plan.to), lookup2, p.hasClient);
    }
  }

  /** A remove or an archive acts on the directory the volume maps to. */
  lemma PlanActsOnTarget(p: Provisioner, volume: PersistentVolume, dirs: set<string>, lookup: Result<StorageClass, string>)
    ensures DeletePlan(p, volume, dirs, lookup).Remove? ==>
      DeleteTarget(p.path, volume.nfsPath) == Ok(DeletePlan(p, volume, dirs, lookup).path)
    ensures DeletePlan(p, volume, dirs, lookup).Archive? ==>
      DeleteTarget(p.path, volume.nfsPath) == Ok(DeletePlan(p, volume, dirs, lookup).from)
  {
  }

  /** A successful rename leaves nothing at its source. */
  lemma MovedLeavesSource(dirs: set<string>, from: string, to: string)
    requires !Below(from, to)
    ensures from !in Moved(dirs, from, to)
  {
    forall d | d in dirs && Below(d, from) ensures to + d[|from|..] != from {
      if d != from {
        var tail := d[|from|..];
        assert d[..|from| + 1] == from + "/";
        assert tail[0] == d[|from|] == '/';
        var e := to + tail;
        assert e[..|to|] == to && e[|to|] == '/';
        assert e[..|to| + 1] == e[..|to|] + [e[|to|]];
        assert HasPrefix(e, to + "/");
      }
    }
  }

  /** Provision then Delete: for a volume Provision made (once the controller
      has recorded its class and added any annotations of its own beside the
      two policy keys), with both knobs resolved at provision time,
      Delete acts on exactly the created directory as the provision-time
      decision says, whatever class parameters and defaults are in force. */
  lemma {:induction false} ProvisionThenDelete(
    p: Provisioner, options: ProvisionOptions, o: DeleteOptions,
    later: Provisioner, storageClass: StorageClass, annotations: Option<map<string, string>>, dirs: set<string>)
    requires options.storageClass.Some? && PlainDefault(options)
    requires ResolveForProvision(p, options) == Ok(o) && o.onDelete != "" && o.archiveOnDelete.Some?
    requires later.path == p.path && later.hasClient && storageClass.name != ""
    requires CarriesPolicy(ProvisionedVolume(p, options, o).(className := storageClass.name, annotations := annotations), o)
    requires FullPathFor(options) in dirs
    ensures
      var volume := ProvisionedVolume(p, options, o).(className := storageClass.name, annotations := annotations);
      DeletePlan(later, volume, dirs, Ok(storageClass)) ==
        if o.onDelete == "delete" then Remove(FullPathFor(options)) else Keep
  {
    var volume := ProvisionedVolume(p, options, o).(className := storageClass.name, annotations := annotations);
    OffsetRoundTrip(p, options);
    ProvisionDeleteRoundTrip(p, options, o, later, volume, Some(storageClass));
    ResolvedOnDeleteIsPolicy(p, options, o);
  }

  /** With only archiveOnDelete resolved at provision time and no onDelete
      anywhere, Delete removes (false) or archives (true) the created
      directory, whatever other annotations the volume has gained. */
  lemma {:induction false} ProvisionThenArchive(
    p: Provisioner, options: ProvisionOptions, o: DeleteOptions,
    later: Provisioner, storageClass: StorageClass, annotations: Option<map<string, string>>, dirs: set<string>)
    requires options.storageClass.Some? && PlainDefault(options)
    requires ResolveForProvision(p, options) == Ok(o) && o.onDelete == "" && o.archiveOnDelete.Some?
    requires ClassOnDelete(Some(storageClass)) == "" && NormalizeOnDelete(later.defaultOnDelete) == ""
    requires later.path == p.path && later.hasClient && storageClass.name != ""
    requires CarriesPolicy(ProvisionedVolume(p, options, o).(className := storageClass.name, annotations := annotations), o)
    requires FullPathFor(options) in dirs
    ensures
      var volume := ProvisionedVolume(p, options, o).(className := storageClass.name, annotations := annotations);
      DeletePlan(later, volume, dirs, Ok(storageClass)) ==
        if o.archiveOnDelete.value then Archive(FullPathFor(options), ArchivePath(NfsPathFor(p, options)))
        else Remove(FullPathFor(options))
  {
    var volume := ProvisionedVolume(p, options, o).(className := storageClass.name, annotations := annotations);
    OffsetRoundTrip(p, options);
    ProvisionDeleteRoundTrip(p, options, o, later, volume, Some(storageClass));
    var read := AnnotationsOf(volume);
    assert OnDeleteAnnotation !in read;
    FirstNonEmptyOfThree(NormalizeOnDelete(Get(read, OnDeleteAnnotation)), ClassOnDelete(Some(storageClass)), NormalizeOnDelete(later.defaultOnDelete));
    var e := "";
    assert NormalizeOnDelete(e) == "" by { assert TrimSpace(e) == e; }
  }
}
