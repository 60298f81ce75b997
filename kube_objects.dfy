/**
  The Kubernetes objects the provisioner reads and writes, cut down to the
  fields it uses, and the provisioner's own configuration.
 */
module KubeObjects {
  import opened Wrappers

  /** Indexing a Go map[string]string: a missing key (or a nil map) gives "". */
  function Get(m: map<string, string>, key: string): string {
    if key in m then m[key] else ""
  }

  /** Annotation keys on claims and volumes (the claim and volume keys are
      the same strings). */
  const OnDeleteAnnotation := "nfs.io/on-delete"
  const ArchiveOnDeleteAnnotation := "nfs.io/archive-on-delete"

  /** StorageClass parameter keys. */
  const OnDeleteParameter := "onDelete"
  const ArchiveOnDeleteParameter := "archiveOnDelete"
  const PathPatternParameter := "pathPattern"

  /** A StorageClass: its name and free-form parameters. */
  datatype StorageClass = StorageClass(name: string, parameters: map<string, string>)

  /** A PersistentVolumeClaim: identity, metadata maps, and whether its spec
      carries a label selector. */
  datatype Claim = Claim(
    namespace: string,
    name: string,
    labels: map<string, string>,
    annotations: map<string, string>,
    hasSelector: bool)

  /** controller.ProvisionOptions: the claim, the generated volume name and
      the claim's class (nil is None). */
  datatype ProvisionOptions = ProvisionOptions(
    pvc: Claim,
    pvName: string,
    storageClass: Option<StorageClass>)

  /** A PersistentVolume backed by an NFS export.  `annotations` is None for
      a nil map; `className` is the class name the volume reports (written by
      the controller library after Provision returns). */
  datatype PersistentVolume = PersistentVolume(
    name: string,
    annotations: Option<map<string, string>>,
    server: string,
    nfsPath: string,
    className: string)

  /** The volume's annotations as Go reads them: a nil map reads as empty. */
  function AnnotationsOf(volume: PersistentVolume): map<string, string> {
    match volume.annotations
    case None => map[]
    case Some(m) => m
  }

  /** nfsProvisioner: whether a Kubernetes client is configured, the NFS
      server and export root, and the process-wide defaults. */
  datatype Provisioner = Provisioner(
    hasClient: bool,
    server: string,
    path: string,
    defaultArchiveOnDelete: Option<bool>,
    defaultOnDelete: string)
}
