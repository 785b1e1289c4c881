/** Resolution of the node that owns the Longhorn share-manager of a pod's
    ReadWriteMany volume: first the ShareManager custom resource
    (status.ownerID), then the share-manager pod. The functions are the
    specification; the methods are the source's loops, proved against them. */
module ShareManager {
  import opened Kube
  import opened Plugin

  // ---------------------------------------------------------------------
  // Claim names of a pod

  /** Claim names of the volumes with a PVC source, in declared order. There
      is at most one name per volume, and none exactly when no volume has a
      PVC source. */
  function ClaimNames(volumes: seq<Volume>): (names: seq<string>)
    ensures |names| <= |volumes|
    ensures names == [] <==> forall i :: 0 <= i < |volumes| ==> volumes[i].persistentVolumeClaim.None?
  {
    if volumes == [] then []
    else
      (if volumes[0].persistentVolumeClaim.Some? then [volumes[0].persistentVolumeClaim.value] else [])
      + ClaimNames(volumes[1..])
  }

  /** ClaimNames distributes over concatenation, so it keeps the declared
      order and every duplicate. */
  lemma {:induction false} ClaimNamesAppend(a: seq<Volume>, b: seq<Volume>)
    ensures ClaimNames(a + b) == ClaimNames(a) + ClaimNames(b)
  {
    if a == [] {
      assert a + b == b;
    } else {
      assert (a + b)[1..] == a[1..] + b;
      ClaimNamesAppend(a[1..], b);
    }
  }

  /** A single volume contributes its claim name if it has one, and nothing otherwise. */
  lemma ClaimNamesSingle(v: Volume)
    ensures ClaimNames([v]) == if v.persistentVolumeClaim.Some? then [v.persistentVolumeClaim.value] else []
  {
  }

  /** A name is collected exactly when some volume carries it as its claim. */
  lemma {:induction false} ClaimNamesMembership(volumes: seq<Volume>, claim: string)
    ensures claim in ClaimNames(volumes) <==>
      exists i :: 0 <= i < |volumes| && volumes[i].persistentVolumeClaim == Some(claim)
  {
    if volumes != [] {
      ClaimNamesMembership(volumes[1..], claim);
      if claim in ClaimNames(volumes[1..]) {
        var i :| 0 <= i < |volumes[1..]| && volumes[1..][i].persistentVolumeClaim == Some(claim);
        assert volumes[i + 1].persistentVolumeClaim == Some(claim);
      }
      if exists i :: 0 <= i < |volumes| && volumes[i].persistentVolumeClaim == Some(claim) {
        var i :| 0 <= i < |volumes| && volumes[i].persistentVolumeClaim == Some(claim);
        if i > 0 {
          assert volumes[1..][i - 1].persistentVolumeClaim == Some(claim);
        }
      }
    }
  }

  /** The pod's volume loop, appending each PVC claim name. */
  method CollectPVCNames(pod: Pod) returns (names: seq<string>)
    ensures names == ClaimNames(pod.volumes)
  {
    names := [];
    for i := 0 to |pod.volumes|
      invariant names == ClaimNames(pod.volumes[..i])
    {
      var vol := pod.volumes[i];
      ClaimNamesAppend(pod.volumes[..i], [vol]);
      ClaimNamesSingle(vol);
      assert pod.volumes[..i + 1] == pod.volumes[..i] + [vol];
      if vol.persistentVolumeClaim.Some? {
        names := names + [vol.persistentVolumeClaim.value];
      }
    }
    assert pod.volumes[..|pod.volumes|] == pod.volumes;
  }

  // ---------------------------------------------------------------------
  // Access mode

  /** The access-mode loop with its early return. */
  method IsRWX(pvc: PVC) returns (rwx: bool)
    ensures rwx <==> ReadWriteMany in pvc.accessModes
    ensures rwx <==> exists i :: 0 <= i < |pvc.accessModes| && ModeString(pvc.accessModes[i]) == "ReadWriteMany"
  {
    for i := 0 to |pvc.accessModes|
      invariant ReadWriteMany !in pvc.accessModes[..i]
    {
      if pvc.accessModes[i] == ReadWriteMany {
        return true;
      }
      assert pvc.accessModes[..i + 1] == pvc.accessModes[..i] + [pvc.accessModes[i]];
    }
    assert pvc.accessModes[..|pvc.accessModes|] == pvc.accessModes;
    return false;
  }

  // ---------------------------------------------------------------------
  // Tier 1: the ShareManager custom resource

  /** The key of the ShareManager object named after a PV. */
  function ShareManagerKey(pvName: string): (k: ObjectKey)
    ensures k == ("longhorn-system", pvName)
  {
    (LonghornNamespace, pvName)
  }

  /** `v, _ := m[key].(string)`: the string held under `key`, or "" when the
      key is missing or holds another kind of value. */
  function StringField(m: map<string, Value>, key: string): (s: string)
    ensures s != "" ==> key in m && m[key] == VString(s)
    ensures key in m && m[key].VString? ==> s == m[key].str
  {
    if key in m && m[key].VString? then m[key].str else ""
  }

  /** status.ownerID of the ShareManager object, when its state is usable;
      Err when the object cannot be fetched. */
  function NodeFromCRD(objects: map<ObjectKey, Unstructured>, pvName: string): (r: Result<string>)
    ensures r.Err? <==> ShareManagerKey(pvName) !in objects
  {
    var key := ShareManagerKey(pvName);
    if key !in objects then Err("sharemanagers.longhorn.io \"" + pvName + "\" not found")
    else
      var obj := objects[key];
      if !("status" in obj && obj["status"].VMap?) then Ok("")
      else
        var status := obj["status"].fields;
        var ownerID := StringField(status, "ownerID");
        if ownerID == "" then Ok("")
        else
          var state := StringField(status, "state");
          if state == "running" || state == "starting" then Ok(ownerID) else Ok("")
  }

  /** The ShareManager object names a usable owner: `status` is an object,
      `status.ownerID` a non-empty string and `status.state` the string
      "running" or "starting". */
  predicate UsableOwner(obj: Unstructured, owner: string)
  {
    && "status" in obj
    && obj["status"].VMap?
    && "ownerID" in obj["status"].fields
    && obj["status"].fields["ownerID"] == VString(owner)
    && owner != ""
    && "state" in obj["status"].fields
    && (obj["status"].fields["state"] == VString("running") ||
        obj["status"].fields["state"] == VString("starting"))
  }

  /** Tier 1 yields a node exactly when the fetched object names a usable
      owner, and that owner is the node; a fetched object yields "" otherwise. */
  lemma CRDTierExactly(objects: map<ObjectKey, Unstructured>, pvName: string)
    ensures forall owner :: owner != "" ==>
      (NodeFromCRD(objects, pvName) == Ok(owner) <==>
        ShareManagerKey(pvName) in objects && UsableOwner(objects[ShareManagerKey(pvName)], owner))
    ensures ShareManagerKey(pvName) in objects ==>
      (NodeFromCRD(objects, pvName) == Ok("") <==>
        forall owner :: !UsableOwner(objects[ShareManagerKey(pvName)], owner))
  {
  }

  // ---------------------------------------------------------------------
  // Tier 2: the share-manager pod

  /** The key of the share-manager pod of a PV. */
  function ShareManagerPodKey(pvName: string): (k: ObjectKey)
    ensures k == ("longhorn-system", "share-manager-" + pvName)
  {
    (LonghornNamespace, ShareManagerPrefix + pvName)
  }

  /** The node of the share-manager pod when it is Running and scheduled, "" otherwise. */
  function NodeFromPod(pods: map<ObjectKey, Pod>, pvName: string): (node: string)
    ensures node != "" <==>
      (ShareManagerPodKey(pvName) in pods &&
       pods[ShareManagerPodKey(pvName)].phase == Running &&
       pods[ShareManagerPodKey(pvName)].nodeName != "")
    ensures node != "" ==> node == pods[ShareManagerPodKey(pvName)].nodeName
  {
    var key := ShareManagerPodKey(pvName);
    if key !in pods then ""
    else
      var smPod := pods[key];
      if smPod.phase == Running && smPod.nodeName != "" then smPod.nodeName else ""
  }

  // ---------------------------------------------------------------------
  // One claim

  /** The claim exists in the pod's namespace, allows ReadWriteMany and is bound. */
  predicate Eligible(c: Cluster, namespace: string, claim: string)
  {
    (namespace, claim) in c.pvcs &&
    ReadWriteMany in c.pvcs[(namespace, claim)].accessModes &&
    c.pvcs[(namespace, claim)].volumeName != ""
  }

  /** The node of the share-manager of one claim. Every failed lookup becomes
      absence or a fall-through, so the result is never an error. */
  function NodeForPVC(c: Cluster, namespace: string, claim: string): (r: Result<string>)
    ensures r.Ok?
  {
    var key := (namespace, claim);
    if key !in c.pvcs then Ok("")
    else
      var pvc := c.pvcs[key];
      if ReadWriteMany !in pvc.accessModes then Ok("")
      else
        var pvName := pvc.volumeName;
        if pvName == "" then Ok("")
        else
          var crd :=
            if c.shareManagers.Some? then
              match NodeFromCRD(c.shareManagers.value, pvName)
              case Err(_) => ""
              case Ok(node) => node
            else "";
          if crd != "" then Ok(crd)
          else Ok(NodeFromPod(c.pods, pvName))
  }

  /** A missing, non-RWX or unbound claim yields "" whatever the share-manager
      objects and pods are: neither tier is consulted. */
  lemma IneligibleClaimYieldsNothing(c: Cluster, namespace: string, claim: string)
    requires !Eligible(c, namespace, claim)
    ensures NodeForPVC(c, namespace, claim) == Ok("")
  {
  }

  /** Tier precedence: a node from the custom resource wins over whatever the
      share-manager pod says. */
  lemma CRDTierWins(c: Cluster, namespace: string, claim: string, node: string)
    requires Eligible(c, namespace, claim)
    requires c.shareManagers.Some?
    requires NodeFromCRD(c.shareManagers.value, c.pvcs[(namespace, claim)].volumeName) == Ok(node)
    requires node != ""
    ensures NodeForPVC(c, namespace, claim) == Ok(node)
  {
  }

  /** The pod tier decides when there is no dynamic client, the custom
      resource cannot be fetched, or it yields "". */
  lemma PodTierFallback(c: Cluster, namespace: string, claim: string)
    requires Eligible(c, namespace, claim)
    requires c.shareManagers.None? ||
             NodeFromCRD(c.shareManagers.value, c.pvcs[(namespace, claim)].volumeName).Err? ||
             NodeFromCRD(c.shareManagers.value, c.pvcs[(namespace, claim)].volumeName) == Ok("")
    ensures NodeForPVC(c, namespace, claim) == Ok(NodeFromPod(c.pods, c.pvcs[(namespace, claim)].volumeName))
  {
  }

  // ---------------------------------------------------------------------
  // All claims of a pod

  /** The first non-empty per-claim result in order, stopping at an error.
      Since no claim lookup fails, neither does the loop. */
  function ResolveClaims(c: Cluster, namespace: string, claims: seq<string>): (r: Result<string>)
    ensures r.Ok?
  {
    if claims == [] then Ok("")
    else
      match NodeForPVC(c, namespace, claims[0])
      case Err(e) => Err(e)
      case Ok(node) => if node != "" then Ok(node) else ResolveClaims(c, namespace, claims[1..])
  }

  /** The resolver of a pod: Ok("") when no claim yields a node. It never
      reports an error. */
  function Resolve(c: Cluster, pod: Pod): (r: Result<string>)
    ensures r.Ok?
  {
    var names := ClaimNames(pod.volumes);
    if |names| == 0 then Ok("") else ResolveClaims(c, pod.namespace, names)
  }

  /** Claim k is the first claim to yield `node`: every earlier claim yields "". */
  ghost predicate FirstToYield(c: Cluster, namespace: string, claims: seq<string>, k: int, node: string)
  {
    && 0 <= k < |claims|
    && NodeForPVC(c, namespace, claims[k]) == Ok(node)
    && forall j :: 0 <= j < k ==> NodeForPVC(c, namespace, claims[j]) == Ok("")
  }

  /** No claim yields a node. */
  ghost predicate NoneYields(c: Cluster, namespace: string, claims: seq<string>)
  {
    forall j :: 0 <= j < |claims| ==> NodeForPVC(c, namespace, claims[j]) == Ok("")
  }

  /** First match: a node is resolved exactly when it is yielded by a claim
      that every earlier claim leaves empty. */
  lemma {:induction false} ResolveClaimsFirstMatch(c: Cluster, namespace: string, claims: seq<string>, node: string)
    requires node != ""
    ensures ResolveClaims(c, namespace, claims) == Ok(node) <==> exists k :: FirstToYield(c, namespace, claims, k, node)
  {
    if claims != [] {
      var rest := claims[1..];
      ResolveClaimsFirstMatch(c, namespace, rest, node);
      if NodeForPVC(c, namespace, claims[0]) == Ok("") {
        if ResolveClaims(c, namespace, rest) == Ok(node) {
          var k :| FirstToYield(c, namespace, rest, k, node);
          assert claims[k + 1] == rest[k];
          forall j | 0 <= j < k + 1 ensures NodeForPVC(c, namespace, claims[j]) == Ok("") {
            if j > 0 { assert claims[j] == rest[j - 1]; }
          }
          assert FirstToYield(c, namespace, claims, k + 1, node);
        }
        if exists k :: FirstToYield(c, namespace, claims, k, node) {
          var k :| FirstToYield(c, namespace, claims, k, node);
          assert k > 0;
          assert rest[k - 1] == claims[k];
          forall j | 0 <= j < k - 1 ensures NodeForPVC(c, namespace, rest[j]) == Ok("") {
            assert rest[j] == claims[j + 1];
          }
          assert FirstToYield(c, namespace, rest, k - 1, node);
        }
      } else {
        if ResolveClaims(c, namespace, claims) == Ok(node) {
          assert FirstToYield(c, namespace, claims, 0, node);
        }
        if exists k :: FirstToYield(c, namespace, claims, k, node) {
          var k :| FirstToYield(c, namespace, claims, k, node);
          assert k == 0;
        }
      }
    }
  }

  /** Nothing is resolved exactly when every claim yields "" (vacuously so
      for a pod without claims). */
  lemma {:induction false} ResolveClaimsNone(c: Cluster, namespace: string, claims: seq<string>)
    ensures ResolveClaims(c, namespace, claims) == Ok("") <==> NoneYields(c, namespace, claims)
  {
    if claims != [] {
      var rest := claims[1..];
      ResolveClaimsNone(c, namespace, rest);
      if ResolveClaims(c, namespace, claims) == Ok("") {
        assert NodeForPVC(c, namespace, claims[0]) == Ok("");
        forall j | 0 <= j < |claims| ensures NodeForPVC(c, namespace, claims[j]) == Ok("") {
          if j > 0 { assert claims[j] == rest[j - 1]; }
        }
      }
      if NoneYields(c, namespace, claims) {
        assert NodeForPVC(c, namespace, claims[0]) == Ok("");
        forall j | 0 <= j < |rest| ensures NodeForPVC(c, namespace, rest[j]) == Ok("") {
          assert rest[j] == claims[j + 1];
        }
      }
    }
  }

  /** For a pod: a node is resolved exactly when it is the result of the
      first of its claims, in declared order, that yields a node. */
  lemma ResolveFirstMatch(c: Cluster, pod: Pod, node: string)
    requires node != ""
    ensures Resolve(c, pod) == Ok(node) <==> exists k :: FirstToYield(c, pod.namespace, ClaimNames(pod.volumes), k, node)
  {
    var names := ClaimNames(pod.volumes);
    ResolveClaimsFirstMatch(c, pod.namespace, names, node);
    if |names| == 0 {
      assert forall k :: !FirstToYield(c, pod.namespace, names, k, node);
    } else {
      assert Resolve(c, pod) == ResolveClaims(c, pod.namespace, names);
      assert (Resolve(c, pod) == Ok(node)) <==> exists k :: FirstToYield(c, pod.namespace, names, k, node);
      assert names == ClaimNames(pod.volumes);
      assert (Resolve(c, pod) == Ok(node)) <==> exists k :: FirstToYield(c, pod.namespace, ClaimNames(pod.volumes), k, node);
    }
  }

  /** For a pod: nothing is resolved exactly when every claim yields "". */
  lemma ResolveNone(c: Cluster, pod: Pod)
    ensures Resolve(c, pod) == Ok("") <==> NoneYields(c, pod.namespace, ClaimNames(pod.volumes))
  {
    ResolveClaimsNone(c, pod.namespace, ClaimNames(pod.volumes));
  }

  /** A pod without PVC volumes resolves to nothing. */
  lemma NoClaimsResolveNothing(c: Cluster, pod: Pod)
    requires forall i :: 0 <= i < |pod.volumes| ==> pod.volumes[i].persistentVolumeClaim.None?
    ensures Resolve(c, pod) == Ok("")
  {
  }

  /** Later claims are not consulted once an earlier one has decided. */
  lemma {:induction false} LaterClaimsIgnored(c: Cluster, namespace: string, first: seq<string>, later: seq<string>)
    requires ResolveClaims(c, namespace, first) != Ok("")
    ensures ResolveClaims(c, namespace, first + later) == ResolveClaims(c, namespace, first)
  {
    assert first != [];
    assert (first + later)[0] == first[0];
    assert (first + later)[1..] == first[1..] + later;
    if NodeForPVC(c, namespace, first[0]) == Ok("") {
      LaterClaimsIgnored(c, namespace, first[1..], later);
    }
  }

  /** Claims that yield nothing are skipped over. */
  lemma {:induction false} EmptyClaimsSkipped(c: Cluster, namespace: string, first: seq<string>, later: seq<string>)
    requires ResolveClaims(c, namespace, first) == Ok("")
    ensures ResolveClaims(c, namespace, first + later) == ResolveClaims(c, namespace, later)
  {
    if first == [] {
      assert first + later == later;
    } else {
      assert (first + later)[0] == first[0];
      assert (first + later)[1..] == first[1..] + later;
      EmptyClaimsSkipped(c, namespace, first[1..], later);
    }
  }

  /** With no share-manager object and no share-manager pod anywhere, no pod
      resolves to a node. */
  lemma AbsentShareManagersResolveNothing(c: Cluster, pod: Pod)
    requires c.shareManagers.None? || forall pv :: ShareManagerKey(pv) !in c.shareManagers.value
    requires forall pv :: ShareManagerPodKey(pv) !in c.pods
    ensures Resolve(c, pod) == Ok("")
  {
    var claims := ClaimNames(pod.volumes);
    forall j | 0 <= j < |claims| ensures NodeForPVC(c, pod.namespace, claims[j]) == Ok("") {
      if Eligible(c, pod.namespace, claims[j]) {
        var pv := c.pvcs[(pod.namespace, claims[j])].volumeName;
        assert ShareManagerPodKey(pv) !in c.pods;
        PodTierFallback(c, pod.namespace, claims[j]);
      }
    }
    ResolveClaimsNone(c, pod.namespace, claims);
  }

  /** The resolver loop with its early returns. */
  method FindShareManagerNode(c: Cluster, pod: Pod) returns (r: Result<string>)
    ensures r == Resolve(c, pod)
  {
    var names := CollectPVCNames(pod);
    if |names| == 0 {
      return Ok("");
    }
    var i := 0;
    while i < |names|
      invariant 0 <= i <= |names|
      invariant ResolveClaims(c, pod.namespace, names[i..]) == Resolve(c, pod)
    {
      assert names[i..][1..] == names[i + 1..];
      var res := NodeForPVC(c, pod.namespace, names[i]);
      var node := res.value;
      if node != "" {
        return Ok(node);
      }
      i := i + 1;
    }
    return Ok("");
  }
}
