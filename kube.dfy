/** The slice of the Kubernetes API that the co-scheduling plugin reads, as
    immutable values, together with a snapshot of the cluster that stands in
    for the typed and dynamic clients. */
module Kube {

  datatype Option<+T> = None | Some(value: T)

  /** A Go `(T, error)` pair where the error is either nil or carries a message. */
  datatype Result<+T> = Ok(value: T) | Err(error: string)

  type Labels = map<string, string>

  /** Go reads a missing map key as the zero value; for strings that is "". */
  function Lookup(m: map<string, string>, key: string): string
  {
    if key in m then m[key] else ""
  }

  /** A pod volume; `persistentVolumeClaim` is the claim name when the volume
      has a PersistentVolumeClaim source and None for every other source. */
  datatype Volume = Volume(name: string, persistentVolumeClaim: Option<string>)

  datatype PodPhase = Pending | Running | Succeeded | Failed | Unknown

  /** Both the candidate pod and a share-manager pod. `annotations` is None
      when the Go map is nil. */
  datatype Pod = Pod(
    namespace: string,
    name: string,
    annotations: Option<map<string, string>>,
    labels: Labels,
    volumes: seq<Volume>,
    nodeName: string,
    phase: PodPhase)

  /** The spelling of an access mode outside the four the API defines. */
  type OtherModeName = s: string | s !in {"ReadWriteOnce", "ReadOnlyMany", "ReadWriteMany", "ReadWriteOncePod"}

  /** A PVC access mode. Go's PersistentVolumeAccessMode is a string, so a
      mode the API does not define is kept with its spelling; that spelling
      is never one of the four defined names. */
  datatype AccessMode = ReadWriteOnce | ReadOnlyMany | ReadWriteMany | ReadWriteOncePod | OtherMode(mode: OtherModeName)

  /** The string an access mode is in Go. Comparing a mode with
      corev1.ReadWriteMany compares this string with "ReadWriteMany". */
  function ModeString(m: AccessMode): (s: string)
    ensures s == "ReadWriteMany" <==> m == ReadWriteMany
  {
    match m
    case ReadWriteOnce => "ReadWriteOnce"
    case ReadOnlyMany => "ReadOnlyMany"
    case ReadWriteMany => "ReadWriteMany"
    case ReadWriteOncePod => "ReadWriteOncePod"
    case OtherMode(mode) => mode
  }

  /** Distinct modes are distinct strings, so comparing modes as values is
      the same as Go's string comparison. */
  lemma ModeStringInjective(a: AccessMode, b: AccessMode)
    ensures ModeString(a) == ModeString(b) <==> a == b
  {
  }

  /** A PersistentVolumeClaim; `volumeName` is "" while the claim is unbound. */
  datatype PVC = PVC(accessModes: seq<AccessMode>, volumeName: string)

  /** A decoded JSON value as held by an unstructured object: a nested
      object, a string, or anything else (numbers, lists, booleans, null). */
  datatype Value = VMap(fields: map<string, Value>) | VString(str: string) | VOther

  /** The `Object` map of an unstructured custom resource. */
  type Unstructured = map<string, Value>

  /** (namespace, name) */
  type ObjectKey = (string, string)

  /** What the plugin's clients can see at one moment. A key missing from a
      map is a failed Get. `shareManagers` holds the sharemanagers.longhorn.io
      v1beta2 objects and is None when the dynamic client is nil. */
  datatype Cluster = Cluster(
    pvcs: map<ObjectKey, PVC>,
    pods: map<ObjectKey, Pod>,
    shareManagers: Option<map<ObjectKey, Unstructured>>)

  /** `sub` occurs as a contiguous part of `s`. */
  ghost predicate Contains(s: string, sub: string)
  {
    exists i :: OccursAt(s, sub, i)
  }

  predicate OccursAt(s: string, sub: string, i: int)
  {
    0 <= i && i + |sub| <= |s| && s[i..i + |sub|] == sub
  }

  /** Both fillers of a five-part string occur in it. */
  lemma ContainsBoth(a: string, x: string, b: string, y: string, c: string)
    ensures Contains(a + x + b + y + c, x) && Contains(a + x + b + y + c, y)
  {
    var s := a + x + b + y + c;
    assert s[|a|..|a| + |x|] == x;
    assert OccursAt(s, x, |a|);
    assert s[|a| + |x| + |b|..|a| + |x| + |b| + |y|] == y;
    assert OccursAt(s, y, |a| + |x| + |b|);
  }
}
