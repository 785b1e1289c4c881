/** Plugin identity, the fixed names it works with, and the opt-in check. */
module Plugin {
  import opened Kube

  /** The name under which the plugin is registered. */
  const PluginName: string := "LonghornCoSchedule"

  /** The opt-in annotation and the exact value it must have. */
  const AnnotationKey: string := "kubevirt-scheduler/co-schedule"
  const AnnotationValue: string := "true"

  /** Namespace of the share-manager custom resources and pods. */
  const LonghornNamespace: string := "longhorn-system"

  /** A share-manager pod is named this prefix followed by the PV name. */
  const ShareManagerPrefix: string := "share-manager-"

  function Name(): (n: string)
    ensures n == PluginName && n == "LonghornCoSchedule"
  {
    PluginName
  }

  /** The pod asks for co-scheduling: its annotation map is non-nil and the
      opt-in key reads exactly "true". A missing key reads as "" and any
      other value (such as "false") does not opt in. */
  function IsOptedIn(pod: Pod): (b: bool)
    ensures b <==>
      (pod.annotations.Some? &&
       "kubevirt-scheduler/co-schedule" in pod.annotations.value &&
       pod.annotations.value["kubevirt-scheduler/co-schedule"] == "true")
  {
    if pod.annotations.None? then false
    else Lookup(pod.annotations.value, AnnotationKey) == AnnotationValue
  }

  /** A nil annotation map never opts in. */
  lemma NilAnnotationsNotOptedIn(pod: Pod)
    requires pod.annotations.None?
    ensures !IsOptedIn(pod)
  {
  }

  /** Opt-in reads the annotations and nothing else of the pod. */
  lemma OptedInReadsOnlyAnnotations(p: Pod, q: Pod)
    requires p.annotations == q.annotations
    ensures IsOptedIn(p) == IsOptedIn(q)
  {
  }
}
