/**
  How the provisioner decides what happens to a volume's directory when the
  volume is deleted.  Two knobs are resolved from layers of configuration:

  - onDelete ("delete", "retain" or unset), from the claim or volume
    annotation, then the StorageClass parameter, then the process default;
    a value that does not normalise is skipped as if absent;
  - archiveOnDelete (true, false or unset), from the claim or volume
    annotation, then the StorageClass parameter, then the process default;
    a value that does not parse as a Go boolean is an error.

  At provision time both are resolved from the claim, and each one that
  resolved is written onto the volume as an annotation.  At deletion a
  persisted archiveOnDelete always comes back, and a persisted onDelete comes
  back whenever the volume's policy resolves; a knob left unset is read again
  from the delete-time class and default, and with archiveOnDelete unset a
  malformed class value makes deletion fail.
 */
module DeletePolicy {
  import opened Wrappers
  import opened GoText
  import opened KubeObjects

  /** The resolved knobs: onDelete is "" when unset, archiveOnDelete None
      when unset (a nil *bool). */
  datatype DeleteOptions = DeleteOptions(onDelete: string, archiveOnDelete: Option<bool>)

  /** The two ways resolution fails; each carries the value that did not
      parse as a boolean. */
  datatype PolicyError =
    | InvalidArchiveParameter(value: string)
    | InvalidArchiveAnnotation(value: string)

  /** normalizeOnDelete: the recognised onDelete policies, whatever their case
      and surrounding white space; anything else becomes "". */
  function NormalizeOnDelete(value: string): (r: string)
    ensures r == "delete" || r == "retain" || r == ""
    ensures r != "" ==> ToLower(TrimSpace(value)) == r
    ensures r == "" ==> ToLower(TrimSpace(value)) != "delete" && ToLower(TrimSpace(value)) != "retain"
  {
    match ToLower(TrimSpace(value))
    case "delete" => "delete"
    case "retain" => "retain"
    case _ => ""
  }

  // ---------------------------------------------------------------------
  // Reference definitions: configuration as an ordered list of layers

  /** The first non-empty entry of a list of layers, or "" when all are empty. */
  function FirstNonEmpty(layers: seq<string>): (r: string)
    ensures r == "" || r in layers
    ensures r == "" <==> forall i :: 0 <= i < |layers| ==> layers[i] == ""
    ensures r != "" ==> exists i :: 0 <= i < |layers| && layers[i] == r && forall j :: 0 <= j < i ==> layers[j] == ""
  {
    if layers == [] then ""
    else if layers[0] != "" then layers[0]
    else FirstNonEmpty(layers[1..])
  }

  /** The first layer that gives a value, or None when none does. */
  function FirstGiven(layers: seq<Option<string>>): (r: Option<string>)
    ensures r.None? <==> forall i :: 0 <= i < |layers| ==> layers[i].None?
    ensures r.Some? ==> exists i :: 0 <= i < |layers| && layers[i] == r && forall j :: 0 <= j < i ==> layers[j].None?
  {
    if layers == [] then None
    else if layers[0].Some? then layers[0]
    else FirstGiven(layers[1..])
  }

  lemma FirstNonEmptyOfThree(a: string, b: string, c: string)
    ensures FirstNonEmpty([a, b, c]) == if a != "" then a else if b != "" then b else c
  {
    assert [a, b, c][1..] == [b, c];
    assert [b, c][1..] == [c];
    assert [c][1..] == [];
    if a == "" {
      assert FirstNonEmpty([a, b, c]) == FirstNonEmpty([b, c]);
      if b == "" {
        assert FirstNonEmpty([b, c]) == FirstNonEmpty([c]);
      }
    }
  }

  lemma FirstGivenOfTwo(a: Option<string>, b: Option<string>)
    ensures FirstGiven([a, b]) == if a.Some? then a else b
  {
    assert [a, b][1..] == [b];
    assert [b][1..] == [];
  }

  /** A layer that is absent, or whose text is a Go boolean. */
  predicate Parses(layer: Option<string>) {
    layer.None? || ParseBool(layer.value).Some?
  }

  /** archiveOnDelete as the layers decide it: the first given layer's
      boolean, or the default when no layer gives one. */
  function ArchiveFrom(layers: seq<Option<string>>, default: Option<bool>): Option<bool> {
    match FirstGiven(layers)
    case None => default
    case Some(text) => ParseBool(text)
  }

  /** The archive layer an annotation map provides: the annotation counts only
      when it is present and non-empty. */
  function AnnotationArchiveLayer(annotations: map<string, string>): Option<string> {
    if ArchiveOnDeleteAnnotation in annotations && annotations[ArchiveOnDeleteAnnotation] != ""
    then Some(annotations[ArchiveOnDeleteAnnotation])
    else None
  }

  /** The archive layer a StorageClass provides: the parameter counts whenever
      it is present, even when empty. */
  function ClassArchiveLayer(storageClass: Option<StorageClass>): Option<string> {
    if storageClass.Some? && ArchiveOnDeleteParameter in storageClass.value.parameters
    then Some(storageClass.value.parameters[ArchiveOnDeleteParameter])
    else None
  }

  /** The onDelete layer a StorageClass provides ("" without a class). */
  function ClassOnDelete(storageClass: Option<StorageClass>): string {
    if storageClass.Some? then NormalizeOnDelete(Get(storageClass.value.parameters, OnDeleteParameter)) else ""
  }

  // ---------------------------------------------------------------------
  // Resolution

  /** resolveDeleteOptionsForProvision: resolves both knobs from the claim,
      its class and the process defaults.  The class parameter is parsed
      first, so a malformed class value is reported even when the claim's
      annotation would override it. */
  function ResolveForProvision(p: Provisioner, options: ProvisionOptions): (r: Result<DeleteOptions, PolicyError>)
    ensures r.Err? <==> !Parses(ClassArchiveLayer(options.storageClass)) || !Parses(AnnotationArchiveLayer(options.pvc.annotations))
    ensures !Parses(ClassArchiveLayer(options.storageClass)) ==> r == Err(InvalidArchiveParameter(ClassArchiveLayer(options.storageClass).value))
    ensures r.Ok? ==> r.value.onDelete == FirstNonEmpty([
      NormalizeOnDelete(Get(options.pvc.annotations, OnDeleteAnnotation)),
      ClassOnDelete(options.storageClass),
      NormalizeOnDelete(p.defaultOnDelete)])
    ensures r.Ok? ==> r.value.archiveOnDelete == ArchiveFrom([
      AnnotationArchiveLayer(options.pvc.annotations),
      ClassArchiveLayer(options.storageClass)], p.defaultArchiveOnDelete)
  {
    var classOnDelete := ClassOnDelete(options.storageClass);
    var annotation := Get(options.pvc.annotations, OnDeleteAnnotation);
    FirstNonEmptyOfThree(NormalizeOnDelete(annotation), classOnDelete, NormalizeOnDelete(p.defaultOnDelete));
    FirstGivenOfTwo(AnnotationArchiveLayer(options.pvc.annotations), ClassArchiveLayer(options.storageClass));
    var fromClaim := if annotation != "" && NormalizeOnDelete(annotation) != "" then NormalizeOnDelete(annotation) else classOnDelete;
    var onDelete := if fromClaim == "" then NormalizeOnDelete(p.defaultOnDelete) else fromClaim;

    var classValue := ClassArchiveLayer(options.storageClass);
    if classValue.Some? && ParseBool(classValue.value).None? then
      Err(InvalidArchiveParameter(classValue.value))
    else
      var fromClass := if classValue.Some? then ParseBool(classValue.value) else None;
      var annotations := options.pvc.annotations;
      if ArchiveOnDeleteAnnotation in annotations && annotations[ArchiveOnDeleteAnnotation] != "" then
        (match ParseBool(annotations[ArchiveOnDeleteAnnotation])
         case None => Err(InvalidArchiveAnnotation(annotations[ArchiveOnDeleteAnnotation]))
         case Some(b) => Ok(DeleteOptions(onDelete, Some(b))))
      else if fromClass.None? && p.defaultArchiveOnDelete.Some? then
        Ok(DeleteOptions(onDelete, p.defaultArchiveOnDelete))
      else
        Ok(DeleteOptions(onDelete, fromClass))
  }

  /** resolveDeleteOptionsForVolume: resolves both knobs from the volume's
      annotations, the class found at deletion time and the process
      defaults.  Unlike provisioning, only the layer that decides is parsed:
      a well-formed volume annotation shields a malformed class value. */
  function ResolveForVolume(p: Provisioner, volume: PersistentVolume, storageClass: Option<StorageClass>): (r: Result<DeleteOptions, PolicyError>)
    ensures r.Err? <==> !Parses(FirstGiven([AnnotationArchiveLayer(AnnotationsOf(volume)), ClassArchiveLayer(storageClass)]))
    ensures r.Ok? ==> r.value.onDelete == FirstNonEmpty([
      NormalizeOnDelete(Get(AnnotationsOf(volume), OnDeleteAnnotation)),
      ClassOnDelete(storageClass),
      NormalizeOnDelete(p.defaultOnDelete)])
    ensures r.Ok? ==> r.value.archiveOnDelete == ArchiveFrom([
      AnnotationArchiveLayer(AnnotationsOf(volume)),
      ClassArchiveLayer(storageClass)], p.defaultArchiveOnDelete)
  {
    FirstNonEmptyOfThree(NormalizeOnDelete(Get(AnnotationsOf(volume), OnDeleteAnnotation)), ClassOnDelete(storageClass), NormalizeOnDelete(p.defaultOnDelete));
    FirstGivenOfTwo(AnnotationArchiveLayer(AnnotationsOf(volume)), ClassArchiveLayer(storageClass));
    var fromVolume := if volume.annotations.Some? then NormalizeOnDelete(Get(volume.annotations.value, OnDeleteAnnotation)) else "";
    var fromClass := if fromVolume == "" && storageClass.Some? then ClassOnDelete(storageClass) else fromVolume;
    var onDelete := if fromClass == "" then NormalizeOnDelete(p.defaultOnDelete) else fromClass;

    var annotated :=
      if volume.annotations.Some? && ArchiveOnDeleteAnnotation in volume.annotations.value
         && volume.annotations.value[ArchiveOnDeleteAnnotation] != ""
      then Some(volume.annotations.value[ArchiveOnDeleteAnnotation])
      else None;
    if annotated.Some? then
      (match ParseBool(annotated.value)
       case None => Err(InvalidArchiveAnnotation(annotated.value))
       case Some(b) => Ok(DeleteOptions(onDelete, Some(b))))
    else if storageClass.Some? then
      if ArchiveOnDeleteParameter in storageClass.value.parameters then
        (match ParseBool(storageClass.value.parameters[ArchiveOnDeleteParameter])
         case None => Err(InvalidArchiveParameter(storageClass.value.parameters[ArchiveOnDeleteParameter]))
         case Some(b) => Ok(DeleteOptions(onDelete, Some(b))))
      else
        Ok(DeleteOptions(onDelete, p.defaultArchiveOnDelete))
    else
      Ok(DeleteOptions(onDelete, p.defaultArchiveOnDelete))
  }

  /** The annotations Provision writes onto the new volume: one per knob that
      resolved, and a nil map (None) when neither did. */
  function PersistedAnnotations(o: DeleteOptions): (r: Option<map<string, string>>)
    ensures r.None? <==> o.onDelete == "" && o.archiveOnDelete.None?
    ensures r.Some? ==> (OnDeleteAnnotation in r.value <==> o.onDelete != "")
    ensures r.Some? ==> (ArchiveOnDeleteAnnotation in r.value <==> o.archiveOnDelete.Some?)
    ensures r.Some? ==> r.value.Keys <= {OnDeleteAnnotation, ArchiveOnDeleteAnnotation}
    ensures r.Some? && o.onDelete != "" ==> r.value[OnDeleteAnnotation] == o.onDelete
    ensures r.Some? && o.archiveOnDelete.Some? ==> r.value[ArchiveOnDeleteAnnotation] == FormatBool(o.archiveOnDelete.value)
  {
    var withOnDelete: map<string, string> := if o.onDelete != "" then map[OnDeleteAnnotation := o.onDelete] else map[];
    var annotations := if o.archiveOnDelete.Some? then withOnDelete[ArchiveOnDeleteAnnotation := FormatBool(o.archiveOnDelete.value)] else withOnDelete;
    if |annotations| == 0 then None else Some(annotations)
  }

  /** The volume's annotations agree with what Provision persisted for `o`
      on the two policy keys: each key is present exactly when Provision
      wrote it, with the value it wrote.  Other keys, such as the ones the
      controller library adds to every volume it creates, may be present. */
  predicate CarriesPolicy(volume: PersistentVolume, o: DeleteOptions) {
    var stored := match PersistedAnnotations(o) case None => map[] case Some(m) => m;
    var a := AnnotationsOf(volume);
    && (OnDeleteAnnotation in a <==> OnDeleteAnnotation in stored)
    && (OnDeleteAnnotation in stored ==> a[OnDeleteAnnotation] == stored[OnDeleteAnnotation])
    && (ArchiveOnDeleteAnnotation in a <==> ArchiveOnDeleteAnnotation in stored)
    && (ArchiveOnDeleteAnnotation in stored ==> a[ArchiveOnDeleteAnnotation] == stored[ArchiveOnDeleteAnnotation])
  }

  // ---------------------------------------------------------------------
  // Lemmas

  /** Annotations added next to the persisted ones, under other keys, leave
      the volume carrying the provision-time policy. */
  lemma ExtraAnnotationsCarryPolicy(o: DeleteOptions, extra: map<string, string>, volume: PersistentVolume)
    requires OnDeleteAnnotation !in extra && ArchiveOnDeleteAnnotation !in extra
    requires volume.annotations == Some(extra + (match PersistedAnnotations(o) case None => map[] case Some(m) => m))
    ensures CarriesPolicy(volume, o)
  {
  }

  /** Normalising a normalised value changes nothing. */
  lemma NormalizeOnDeleteIdempotent(value: string)
    ensures NormalizeOnDelete(NormalizeOnDelete(value)) == NormalizeOnDelete(value)
  {
    NormalizeOnDeleteFixed(NormalizeOnDelete(value));
  }

  /** Values that differ only in letter case normalise alike. */
  lemma {:induction false} NormalizeOnDeleteIgnoresCase(v: string, w: string)
    requires ToLower(v) == ToLower(w)
    ensures NormalizeOnDelete(v) == NormalizeOnDelete(w)
  {
    TrimSpaceLower(v);
    TrimSpaceLower(w);
  }

  /** White space around a value does not change how it normalises. */
  lemma {:induction false} NormalizeOnDeleteIgnoresSpace(w1: string, v: string, w2: string)
    requires AllSpace(w1) && AllSpace(w2)
    ensures NormalizeOnDelete(w1 + v + w2) == NormalizeOnDelete(v)
  {
    TrimSpaceSurrounded(w1, v, w2);
  }

  /** An onDelete annotation on the claim that does not normalise is ignored:
      resolution comes out as if the claim had no such annotation. */
  lemma UnrecognisedClaimOnDeleteIgnored(p: Provisioner, options: ProvisionOptions, value: string)
    requires NormalizeOnDelete(value) == ""
    ensures ResolveForProvision(p, options.(pvc := options.pvc.(annotations := options.pvc.annotations[OnDeleteAnnotation := value])))
         == ResolveForProvision(p, options.(pvc := options.pvc.(annotations := options.pvc.annotations - {OnDeleteAnnotation})))
  {
    var a := options.pvc.annotations[OnDeleteAnnotation := value];
    var b := options.pvc.annotations - {OnDeleteAnnotation};
    assert AnnotationArchiveLayer(a) == AnnotationArchiveLayer(b);
  }

  /** The three normalised values are the fixed points of NormalizeOnDelete. */
  lemma NormalizeOnDeleteFixed(v: string)
    requires v == "" || v == "delete" || v == "retain"
    ensures NormalizeOnDelete(v) == v
  {
    if v == "" {
      assert TrimSpace(v) == v;
    } else {
      assert !IsSpace(v[0]) && !IsSpace(v[|v| - 1]);
      assert TrimLeft(v) == v;
      assert TrimRight(v) == v;
      assert ToLower(v) == v;
    }
  }

  /** A resolved onDelete is one of the two policies, or unset. */
  lemma ResolvedOnDeleteIsPolicy(p: Provisioner, options: ProvisionOptions, o: DeleteOptions)
    requires ResolveForProvision(p, options) == Ok(o)
    ensures o.onDelete == "" || o.onDelete == "delete" || o.onDelete == "retain"
  {
    var fromClaim := NormalizeOnDelete(Get(options.pvc.annotations, OnDeleteAnnotation));
    var fromClass := ClassOnDelete(options.storageClass);
    var fromDefault := NormalizeOnDelete(p.defaultOnDelete);
    assert o.onDelete == FirstNonEmpty([fromClaim, fromClass, fromDefault]);
    FirstNonEmptyOfThree(fromClaim, fromClass, fromDefault);
  }

  /** The onDelete half of the round trip: a persisted policy is read back
      from the volume before any class or default is consulted. */
  lemma {:induction false} OnDeleteRoundTrip(o: DeleteOptions, later: Provisioner, volume: PersistentVolume, storageClass: Option<StorageClass>)
    requires o.onDelete == "delete" || o.onDelete == "retain"
    requires CarriesPolicy(volume, o)
    requires ResolveForVolume(later, volume, storageClass).Ok?
    ensures ResolveForVolume(later, volume, storageClass).value.onDelete == o.onDelete
  {
    var annotations := AnnotationsOf(volume);
    assert Get(annotations, OnDeleteAnnotation) == o.onDelete;
    NormalizeOnDeleteFixed(o.onDelete);
    var fromVolume := NormalizeOnDelete(Get(annotations, OnDeleteAnnotation));
    var fromClass := ClassOnDelete(storageClass);
    var fromDefault := NormalizeOnDelete(later.defaultOnDelete);
    assert fromVolume == o.onDelete;
    assert ResolveForVolume(later, volume, storageClass).value.onDelete == FirstNonEmpty([fromVolume, fromClass, fromDefault]);
    FirstNonEmptyOfThree(fromVolume, fromClass, fromDefault);
  }

  /** The archiveOnDelete half of the round trip: a persisted boolean is read
      back from the volume, and deletion cannot fail on the class's value. */
  lemma {:induction false} ArchiveRoundTrip(o: DeleteOptions, later: Provisioner, volume: PersistentVolume, storageClass: Option<StorageClass>)
    requires o.archiveOnDelete.Some?
    requires CarriesPolicy(volume, o)
    ensures ResolveForVolume(later, volume, storageClass).Ok?
    ensures ResolveForVolume(later, volume, storageClass).value.archiveOnDelete == o.archiveOnDelete
  {
    var annotations := AnnotationsOf(volume);
    var text := FormatBool(o.archiveOnDelete.value);
    assert annotations[ArchiveOnDeleteAnnotation] == text;
    ParseFormatBool(o.archiveOnDelete.value);
    assert AnnotationArchiveLayer(annotations) == Some(text);
    FirstGivenOfTwo(AnnotationArchiveLayer(annotations), ClassArchiveLayer(storageClass));
  }

  /** A persisted onDelete does not shield the volume from the class's
      archiveOnDelete parameter: with only "retain" persisted, a class value
      that does not parse makes the volume's resolution fail, so Delete
      returns that error instead of keeping the directory. */
  lemma RetainNotShieldedFromClass(later: Provisioner, volume: PersistentVolume)
    requires volume.annotations == Some(map[OnDeleteAnnotation := "retain"])
    ensures CarriesPolicy(volume, DeleteOptions("retain", None))
    ensures ResolveForVolume(later, volume, Some(StorageClass("c", map[ArchiveOnDeleteParameter := "yes"]))).Err?
  {
    var o := DeleteOptions("retain", None);
    assert PersistedAnnotations(o) == Some(map[OnDeleteAnnotation := "retain"]);
    assert ArchiveOnDeleteAnnotation != OnDeleteAnnotation;
    assert ParseBool("yes") == None;
  }

  /** The volume's annotations carry the provision-time decision to deletion:
      a resolved archiveOnDelete always comes back, whatever StorageClass and
      defaults are in force when the volume is deleted; a resolved onDelete
      comes back whenever the volume's policy resolves; when both resolved,
      the whole decision comes back.  With archiveOnDelete unset, a malformed
      delete-time class value still makes resolution fail
      (RetainNotShieldedFromClass). */
  lemma {:induction false} ProvisionDeleteRoundTrip(
    p: Provisioner, options: ProvisionOptions, o: DeleteOptions,
    later: Provisioner, volume: PersistentVolume, storageClass: Option<StorageClass>)
    requires ResolveForProvision(p, options) == Ok(o)
    requires CarriesPolicy(volume, o)
    ensures o.archiveOnDelete.Some? ==> ResolveForVolume(later, volume, storageClass).Ok?
    ensures o.archiveOnDelete.Some? ==> ResolveForVolume(later, volume, storageClass).value.archiveOnDelete == o.archiveOnDelete
    ensures o.onDelete != "" && ResolveForVolume(later, volume, storageClass).Ok? ==>
      ResolveForVolume(later, volume, storageClass).value.onDelete == o.onDelete
    ensures o.onDelete != "" && o.archiveOnDelete.Some? ==> ResolveForVolume(later, volume, storageClass) == Ok(o)
  {
    ResolvedOnDeleteIsPolicy(p, options, o);
    if o.archiveOnDelete.Some? {
      ArchiveRoundTrip(o, later, volume, storageClass);
    }
    if o.onDelete != "" && ResolveForVolume(later, volume, storageClass).Ok? {
      OnDeleteRoundTrip(o, later, volume, storageClass);
    }
  }

  /** At deletion time a well-formed archive annotation on the volume decides
      alone: the StorageClass's value is never parsed, so a malformed one
      cannot make deletion fail. */
  lemma VolumeAnnotationShieldsClass(p: Provisioner, volume: PersistentVolume, storageClass: Option<StorageClass>, b: bool)
    requires AnnotationArchiveLayer(AnnotationsOf(volume)).Some?
    requires ParseBool(AnnotationArchiveLayer(AnnotationsOf(volume)).value) == Some(b)
    ensures ResolveForVolume(p, volume, storageClass).Ok?
    ensures ResolveForVolume(p, volume, storageClass).value.archiveOnDelete == Some(b)
  {
    assert FirstGiven([AnnotationArchiveLayer(AnnotationsOf(volume)), ClassArchiveLayer(storageClass)]) == AnnotationArchiveLayer(AnnotationsOf(volume));
  }

  /** At provision time the class parameter is parsed even when the claim's
      annotation would override it, so the same malformed class value fails
      provisioning. */
  lemma ClaimAnnotationDoesNotShieldClass(p: Provisioner, options: ProvisionOptions)
    requires !Parses(ClassArchiveLayer(options.storageClass))
    ensures ResolveForProvision(p, options).Err?
  {
  }
}
