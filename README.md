# nfs-subdir-external-provisioner, modelled in Dafny

The repository is a Kubernetes external provisioner. It serves each
PersistentVolumeClaim as a sub-directory of one NFS export. The export is
mounted in the provisioner's container at `/persistentvolumes`. It also holds a
small log scanner, `nfs-error-scan`. This project models and proves the
following parts.

- **Delete policy** (`delete_policy.dfy`, module `DeletePolicy`). There are two
  knobs:
  - `onDelete` is `delete`, `retain` or unset.
  - `archiveOnDelete` is true, false or unset.

  `normalizeOnDelete` and the two resolvers pick each knob from layers: the
  claim or volume annotation, then the StorageClass parameter, then the
  process default. Provision writes the knobs it resolved onto the volume as
  annotations. The model proves what that promises. At deletion time, a
  resolved archiveOnDelete always comes back, whatever class and defaults are
  in force then. A resolved onDelete comes back whenever the volume's policy
  resolves. With archiveOnDelete unset, the delete-time class parameter is
  read again, and a malformed value there makes Delete fail even when
  "retain" was persisted. A knob left unset at provision time is resolved
  again from the delete-time class and default.
- **Path templates** (`path_template.dfy`, module `PathTemplate`). The
  `pathPattern` parameter holds placeholders such as `${.PVC.labels.<key>}`.
  The model has:
  - a hand-written scanner for them, which stands in for the regular
    expression;
  - the substitution loop `stringParser`, which calls `ReplaceAll` once per
    match, as a method;
  - a positional meaning for it, proved equal to what the loop computes.
- **Provision and Delete** (`lifecycle.dfy`, module `Lifecycle`). The export is
  a `FileSystem` object holding a set of directory paths. `MkdirAll`, `Chmod`,
  `RemoveAll` and `Rename` may each fail, and the environment chooses which.
  `Provision` and `Delete` are methods that call these step by step, as the Go
  code does. `Delete` is specified by a pure plan, `DeletePlan`. The lemmas
  about the plan state:
  - path safety;
  - that Delete maps a provisioned volume back to its own directory;
  - that deleting twice is harmless;
  - end-to-end Provision-then-Delete outcomes.
- **Error scanner** (`error_scan.dfy`, module `ErrorScan`). It models
  `hasNFSError`, `prepareTokens` and `scanReader` over a sequence of lines.
  `prepareTokens` and `scanReader` are methods with loops.
- **Supporting Go library behaviour**:
  - `go_text.dfy` (module `GoText`) covers `strings.ToLower`, `TrimSpace`,
    `Contains`, `HasPrefix` and `ReplaceAll`, plus `strconv.ParseBool` and
    `FormatBool`.
  - `go_filepath.dfy` (module `GoFilepath`) covers `filepath.Clean`, `Join`,
    `Rel`, `Base` and `IsAbs` with '/' as the separator. `Clean` is
    defined as a reduction over path elements.
  - `kube_objects.dfy` (module `KubeObjects`) holds the Kubernetes objects,
    cut down to the fields the code reads.
  - `wrappers.dfy` (module `Wrappers`) holds `Option` and `Result`.

A volume whose StorageClass cannot be found is not tolerated at deletion:
`getClassForVolume` returns an error when there is no client, when the volume
names no class, or when the lookup fails, and `Delete` returns that error.

A volume whose NFS path is the export root itself gets the offset `.` from
`filepath.Rel`. Delete's guard only refuses offsets that start with `..`, so
such a volume maps to the whole mount root. `ExportRootMapsToMountRoot`
states this.

## Model

| member | source | states |
|---|---|---|
| GoText.ParseFormatBool | cmd/nfs-subdir-external-provisioner/provisioner.go:252 | ParseBool reads back exactly the value FormatBool wrote for the volume annotation |
| GoText.TrimSpaceLower | cmd/nfs-subdir-external-provisioner/provisioner.go:91 | trimming and lowering commute, so normalisation does not depend on their order |
| GoText.TrimSpaceSurrounded | cmd/nfs-subdir-external-provisioner/provisioner.go:91 | TrimSpace removes any white space wrapped around a value |
| GoText.TrimSpaceShape | cmd/nfs-subdir-external-provisioner/provisioner.go:91 | TrimSpace keeps exactly a middle slice of the value: everything before it and after it is white space, and the kept part neither starts nor ends with white space |
| GoFilepath.CleanIdempotent | cmd/nfs-subdir-external-provisioner/provisioner.go:284-287 | cleaning an already cleaned path changes nothing |
| GoFilepath.JoinNames | cmd/nfs-subdir-external-provisioner/provisioner.go:203-204 | joining plain names onto a directory appends them to the directory's cleaned elements |
| GoFilepath.JoinDot | cmd/nfs-subdir-external-provisioner/provisioner.go:296 | joining the offset "." onto a directory yields the cleaned directory |
| GoFilepath.RelSelf | cmd/nfs-subdir-external-provisioner/provisioner.go:288 | Rel between paths with the same cleaned form is "." |
| GoFilepath.RelWithoutDotDot | cmd/nfs-subdir-external-provisioner/provisioner.go:288-294 | an offset from Rel that does not start with ".." is "." or a sequence of plain names, so it cannot climb out of the base |
| GoFilepath.BaseRender | cmd/nfs-subdir-external-provisioner/provisioner.go:285 | Base of a cleaned non-root path is its last element |
| DeletePolicy.NormalizeOnDelete | cmd/nfs-subdir-external-provisioner/provisioner.go:90-99 | the result is "delete", "retain" or ""; a non-empty result is the trimmed, lowered input; "" exactly when the trimmed, lowered input is neither keyword |
| DeletePolicy.NormalizeOnDeleteIdempotent | cmd/nfs-subdir-external-provisioner/provisioner.go:90-99 | normalising twice equals normalising once |
| DeletePolicy.NormalizeOnDeleteIgnoresCase | cmd/nfs-subdir-external-provisioner/provisioner.go:91 | values equal after lowering normalise alike |
| DeletePolicy.NormalizeOnDeleteIgnoresSpace | cmd/nfs-subdir-external-provisioner/provisioner.go:91 | surrounding white space does not change the result |
| DeletePolicy.NormalizeOnDeleteFixed | cmd/nfs-subdir-external-provisioner/provisioner.go:92-97 | "", "delete" and "retain" normalise to themselves |
| DeletePolicy.FirstNonEmpty | cmd/nfs-subdir-external-provisioner/provisioner.go:102-113 | the first non-empty layer wins; the result is "" exactly when every layer is empty |
| DeletePolicy.FirstGiven | cmd/nfs-subdir-external-provisioner/provisioner.go:154-178 | the first present layer wins; the result is absent exactly when every layer is absent |
| DeletePolicy.ResolveForProvision | cmd/nfs-subdir-external-provisioner/provisioner.go:101-138 | errors exactly when a present class archiveOnDelete parameter or a non-empty claim annotation does not parse; a bad class value wins over the annotation; on success onDelete is claim annotation, else class, else default (normalised), and archiveOnDelete is annotation, else class, else default |
| DeletePolicy.ResolveForVolume | cmd/nfs-subdir-external-provisioner/provisioner.go:140-181 | errors exactly when the first present layer of PV annotation and class parameter does not parse; on success both knobs follow PV annotation, then class, then default; a nil class falls to the default |
| DeletePolicy.PersistedAnnotations | cmd/nfs-subdir-external-provisioner/provisioner.go:247-257 | the map is nil exactly when both knobs are unset; otherwise it holds only the two policy keys, each exactly when that knob is set, with the normalised onDelete and the formatted archiveOnDelete as values |
| DeletePolicy.ExtraAnnotationsCarryPolicy | cmd/nfs-subdir-external-provisioner/provisioner.go:247-257 | a volume whose annotations are the persisted map plus entries under other keys still carries the provision-time policy on the two policy keys |
| DeletePolicy.UnrecognisedClaimOnDeleteIgnored | cmd/nfs-subdir-external-provisioner/provisioner.go:106-110 | a claim onDelete annotation that does not normalise gives the same resolution as no annotation |
| DeletePolicy.ResolvedOnDeleteIsPolicy | cmd/nfs-subdir-external-provisioner/provisioner.go:101-113 | the resolved onDelete is always "", "delete" or "retain" |
| DeletePolicy.OnDeleteRoundTrip | cmd/nfs-subdir-external-provisioner/provisioner.go:247-250 | an onDelete written by Provision is what the volume resolver reads back, whatever other annotations the volume carries |
| DeletePolicy.ArchiveRoundTrip | cmd/nfs-subdir-external-provisioner/provisioner.go:251-253 | an archiveOnDelete written by Provision is read back, and the volume resolver cannot fail on it, whatever other annotations the volume carries |
| DeletePolicy.ProvisionDeleteRoundTrip | cmd/nfs-subdir-external-provisioner/provisioner.go:247-257 | for any volume whose two policy annotations are the ones Provision wrote: a resolved archiveOnDelete always comes back under any class and defaults; a resolved onDelete comes back whenever the volume resolves; with both set the result is the same pair |
| DeletePolicy.RetainNotShieldedFromClass | cmd/nfs-subdir-external-provisioner/provisioner.go:140-181 | with only onDelete "retain" persisted, a class archiveOnDelete value that does not parse still makes the volume's resolution fail |
| DeletePolicy.VolumeAnnotationShieldsClass | cmd/nfs-subdir-external-provisioner/provisioner.go:155-164 | a valid PV archive annotation decides the flag and an invalid class value cannot cause an error |
| DeletePolicy.ClaimAnnotationDoesNotShieldClass | cmd/nfs-subdir-external-provisioner/provisioner.go:116-124 | at provision time an invalid class archiveOnDelete errors whatever the claim annotation says |
| PathTemplate.Classify | cmd/nfs-subdir-external-provisioner/provisioner.go:66-78 | a placeholder body is a label reference exactly when it starts with "labels.", an annotation reference exactly when it starts with "annotations." instead, and otherwise a field name |
| PathTemplate.IndexOfClose | cmd/nfs-subdir-external-provisioner/provisioner.go:66 | a placeholder ends at the first "}" after its opening |
| PathTemplate.FindAll | cmd/nfs-subdir-external-provisioner/provisioner.go:66-69 | every match found is a complete placeholder whose body holds no "}" |
| PathTemplate.StringParser | cmd/nfs-subdir-external-provisioner/provisioner.go:68-82 | the loop of ReplaceAll calls computes the substitution; a string with no "${.PVC." is returned unchanged |
| PathTemplate.FindAllNone | cmd/nfs-subdir-external-provisioner/provisioner.go:69 | without "${.PVC." nothing is matched |
| PathTemplate.NoPlaceholderUnchanged | cmd/nfs-subdir-external-provisioner/provisioner.go:68-82 | a template without "${.PVC." is left unchanged |
| PathTemplate.PlaceholderValues | cmd/nfs-subdir-external-provisioner/provisioner.go:194-201 | labels.K is the claim's label K, annotations.K its annotation K, name and namespace its name and namespace, any other key "" (a missing key reads as "") |
| PathTemplate.FindAllTemplate | cmd/nfs-subdir-external-provisioner/provisioner.go:66-69 | in a template built from literal text without "$" and placeholders whose bodies contain neither "$" nor "}", the scanner finds exactly the placeholders, in order |
| PathTemplate.ReplaceAllTemplate | cmd/nfs-subdir-external-provisioner/provisioner.go:73-77 | replacing one placeholder's text rewrites exactly that placeholder's occurrences and nothing else |
| PathTemplate.ApplyTemplate | cmd/nfs-subdir-external-provisioner/provisioner.go:70-79 | applying the matches in turn fills in every placeholder they cover |
| PathTemplate.SubstituteIsPositional | cmd/nfs-subdir-external-provisioner/provisioner.go:68-82 | for a template of literal text without "$" and placeholders whose bodies contain neither "$" nor "}", and looked-up values without "$", substitution equals replacing each placeholder in place by its value |
| Lifecycle.FileSystem.MkdirAll | cmd/nfs-subdir-external-provisioner/provisioner.go:229-231 | on success the path and all its ancestors exist and nothing else is added; on failure only a prefix of that chain has been created |
| Lifecycle.FileSystem.Chmod | cmd/nfs-subdir-external-provisioner/provisioner.go:232 | changes no directory; succeeds only on an existing path |
| Lifecycle.FileSystem.RemoveAll | cmd/nfs-subdir-external-provisioner/provisioner.go:233-235 | on success the path and everything below it is gone and nothing else; on failure nothing changes |
| Lifecycle.FileSystem.Rename | cmd/nfs-subdir-external-provisioner/provisioner.go:332 | on success the existing source tree moves to the target, which is neither above nor below it and did not exist before; an existing target directory makes it fail; on failure nothing changes |
| Lifecycle.Provision | cmd/nfs-subdir-external-provisioner/provisioner.go:183-281 | always ProvisioningFinished; the selector error is returned exactly when the claim has a selector, with no change; success creates exactly the offset directory chain and returns the volume at the export-side path with the resolved annotations; a create or Chmod failure names the full directory path; a policy error is returned as is; after a Chmod or policy failure the directory has been removed or left as made |
| Lifecycle.CleanupRemovesExisting | cmd/nfs-subdir-external-provisioner/provisioner.go:232-245 | the cleanup after a Chmod or policy failure removes the full path and everything below it, including directories that existed before the call |
| Lifecycle.GetClassForVolume | cmd/nfs-subdir-external-provisioner/provisioner.go:336-350 | succeeds exactly when there is a client, the volume names a class and the lookup succeeds, and returns the looked-up class |
| Lifecycle.Disposition | cmd/nfs-subdir-external-provisioner/provisioner.go:316-332 | retain keeps; delete removes; otherwise archiveOnDelete=false removes, and true or unset archives |
| Lifecycle.Delete | cmd/nfs-subdir-external-provisioner/provisioner.go:283-333 | follows the plan: a failed plan returns its error with no change; skip or keep changes nothing; remove deletes exactly the mapped tree or fails with no change; archive moves it to an archive path that did not exist before, or fails with no change (a second volume with the same archive name is refused) |
| Lifecycle.CustomOffsetNames | cmd/nfs-subdir-external-provisioner/provisioner.go:207-225 | an accepted pathPattern offset is a non-empty sequence of plain names: never empty, ".", absolute or starting with ".." |
| Lifecycle.OffsetNames | cmd/nfs-subdir-external-provisioner/provisioner.go:192-226 | the offset finally used, custom or default, is a non-empty path of plain names that does not start with ".." |
| Lifecycle.FullPathBelowMount | cmd/nfs-subdir-external-provisioner/provisioner.go:203-224 | the directory Provision creates is strictly below the mount root, at the offset |
| Lifecycle.OffsetRoundTrip | cmd/nfs-subdir-external-provisioner/provisioner.go:284-296 | Delete maps the NFS path Provision reported back to the very directory Provision created |
| Lifecycle.ArchiveOfProvisioned | cmd/nfs-subdir-external-provisioner/provisioner.go:330 | a provisioned volume is archived to "archived-" plus the last name of its offset, directly below the mount root |
| Lifecycle.ArchivePathBelowMount | cmd/nfs-subdir-external-provisioner/provisioner.go:330 | the archive path is always strictly below the mount root |
| Lifecycle.ArchivedRoot | cmd/nfs-subdir-external-provisioner/provisioner.go:330 | a volume whose NFS path cleans to "/" has ArchivePath /persistentvolumes/archived- |
| Lifecycle.ExportRootMapsToMountRoot | cmd/nfs-subdir-external-provisioner/provisioner.go:288-296 | a volume at the export root itself maps to the whole mount root |
| Lifecycle.DeleteTargetBelowMount | cmd/nfs-subdir-external-provisioner/provisioner.go:288-296 | every directory Delete maps a volume to is the mount root or below it |
| Lifecycle.DeleteStaysInside | cmd/nfs-subdir-external-provisioner/provisioner.go:292-332 | whatever Delete removes or archives lies inside the mount, and an archive goes strictly below it |
| Lifecycle.AbsentDirectorySkipsLookup | cmd/nfs-subdir-external-provisioner/provisioner.go:298-301 | when the mapped directory is absent Delete skips, whatever the client and lookup |
| Lifecycle.DeleteIdempotent | cmd/nfs-subdir-external-provisioner/provisioner.go:298-332 | after a successful remove or archive, deleting the same volume again skips |
| Lifecycle.MovedLeavesSource | cmd/nfs-subdir-external-provisioner/provisioner.go:332 | after a rename the source directory no longer exists |
| Lifecycle.ProvisionThenDelete | cmd/nfs-subdir-external-provisioner/provisioner.go:247-321 | a volume provisioned with both knobs resolved is removed (delete) or kept (retain) at its own directory, whatever the class, the defaults and the extra annotations at delete time |
| Lifecycle.ProvisionThenArchive | cmd/nfs-subdir-external-provisioner/provisioner.go:247-332 | with only archiveOnDelete resolved and no onDelete anywhere, Delete removes (false) or archives (true) the provisioned directory, whatever extra annotations the volume has gained |
| ErrorScan.AnyContained | cmd/nfs-error-scan/main.go:146-152 | true exactly when some token occurs in the line |
| ErrorScan.HasNFSError | cmd/nfs-error-scan/main.go:140-153 | false whenever the lowered line lacks "nfs"; true exactly when it contains "nfs" and some token |
| ErrorScan.HasNFSErrorIgnoresCase | cmd/nfs-error-scan/main.go:141 | lines that agree up to letter case get the same verdict |
| ErrorScan.HasNFSErrorOfLowered | cmd/nfs-error-scan/main.go:141 | lowering the line first does not change the verdict |
| ErrorScan.PrepareTokens | cmd/nfs-error-scan/main.go:155-162 | same length, same order, each token lowered, and the result is already lower case |
| ErrorScan.PreparedTokensIgnoreCase | cmd/nfs-error-scan/main.go:155-162 | with the prepared tokens, a line matches iff its lowered text contains "nfs" and the lowered form of some original token, so matching ignores case in tokens and line alike |
| ErrorScan.ErrorTokensLowered | cmd/nfs-error-scan/main.go:20-30 | the built-in error words are all lower case |
| ErrorScan.ScanReader | cmd/nfs-error-scan/main.go:117-131 | the loop returns the reference list of matching lines for the whole input |
| ErrorScan.ScannedSound | cmd/nfs-error-scan/main.go:122-131 | every entry carries the input name, a 1-based number in range, that line's text, and the line matches |
| ErrorScan.ScannedOrdered | cmd/nfs-error-scan/main.go:123-130 | reported line numbers strictly increase |
| ErrorScan.ScannedReports | cmd/nfs-error-scan/main.go:125-130 | a matching line i is reported as (name, i+1, its text) |
| ErrorScan.ScannedComplete | cmd/nfs-error-scan/main.go:125-130 | every matching line is reported |
| ErrorScan.SampleLog | cmd/nfs-error-scan/main_test.go:31-51 | the three-line sample is reported at lines 1 and 3 |

## Left out

- `main` in both programs is not modelled: environment variables, kubeconfig, leader election, flags, `scanPaths`, `scanFile`, `report`, printing and exit codes. They are configuration and I/O.
- ErrorScan.ScanReader: bufio's line splitting, its 1 MiB token limit and the read error it can return are not modelled. The input arrives already split into lines.
- Lifecycle.GetClassForVolume: the API call is not made. Its answer is a parameter (`lookup`), and the volume's class name is a field of the volume.
- Lifecycle.Provision: requires the claim's StorageClass to be set. The Go code dereferences it and would panic on a nil class. The PV spec fields copied verbatim (capacity, access modes, mount options, reclaim policy) are not modelled. The returned volume's class name is left empty, because the controller library fills it in.
- Lifecycle.FileSystem: permissions, mode bits, umask and `os.Stat` errors other than "does not exist" are not modelled, and neither are glog messages. A failed RemoveAll is modelled as changing nothing, although a real one may have removed part of the tree. Rename fails when the source is missing, when either path lies below the other, or when the target already exists as a directory, empty or not; a failed Rename changes nothing. A target that exists as a file is not modelled, since the model holds directories only.
- PathTemplate.FindAll: the RE2 detail that `.` does not match a newline is not modelled. A placeholder body here may span a newline.
- GoText.ToLower: models ASCII letters plus the two non-ASCII runes whose lower case is ASCII (U+0130 and U+212A). Other Unicode case mappings are not modelled.
- Concurrency between controller callbacks is not modelled. The code keeps no shared mutable state.
