/**
 * The reconciler for the two managed kinds. Each Apply binds ownership, reads
 * the observed object, and then chooses among a configuration error, a create,
 * a no-op and a single write. The Deployment policy compares the whole spec
 * and patches the desired object with the observed selector kept; the Service
 * policy compares only selector and ports and updates the observed object with
 * those two fields overwritten.
 */
module Deploy {
  import opened Wrappers
  import opened Objects
  import opened Ownership
  import opened ControlPlane

  /** The field owner the operator's server-side apply patches are attributed to. */
  const FieldOwner: string := "llama-stack-operator"

  /** The type information set on a Deployment before it is patched. */
  const DeploymentTypeMeta: TypeMeta := TypeMeta("apps/v1", "Deployment")

  /** Server-side apply, forcing ownership of conflicting fields. */
  const ServerSideApply: PatchOptions := PatchOptions(ApplyPatch, true, FieldOwner)

  /** The contexts read errors are wrapped with. */
  const FetchDeploymentContext: string := "failed to fetch deployment"
  const FetchServiceContext: string := "failed to fetch Service"

  /** A read, classified: the object, its well-known absence, or any other failure. */
  datatype Fetch<T> = Found(obj: T) | Absent | ReadError(err: ApiError)

  /** Splits a read result into found, absent (NotFound) and every other error. */
  function Classify<T>(res: Result<T, ApiError>): (f: Fetch<T>)
    ensures f.Found? <==> res.Success?
    ensures f.Found? ==> f.obj == res.value
    ensures f.Absent? <==> res.Failure? && res.error.NotFound?
    ensures f.ReadError? ==> res == Failure(f.err) && !f.err.NotFound?
  {
    match res
    case Success(obj) => Found(obj)
    case Failure(e) => if e.NotFound? then Absent else ReadError(e)
  }

  /**
   * What a failed reconciliation returns: the binder's failure, a read error
   * wrapped with its context, or a write error returned as the API gave it.
   */
  datatype Error =
    | ControllerReferenceFailed(reason: string)
    | FetchFailed(context: string, cause: ApiError)
    | WriteFailed(cause: ApiError)

  /** The outcome of one reconciliation; the first four are a nil error. */
  datatype Outcome = Created | Unchanged | Patched | Updated | Failed(error: Error)

  /**
   * The result of one Apply: the control plane afterwards, the requests sent to
   * it in order, the outcome, and the caller's desired object as the call left
   * it (the source mutates the object it is given).
   */
  datatype Reconciled<T> = Reconciled(cluster: Cluster, calls: seq<Call>, outcome: Outcome, desired: T)

  function WriteOutcome(err: Option<ApiError>, success: Outcome): Outcome {
    if err.Some? then Failed(WriteFailed(err.value)) else success
  }

  /** The Deployment that is patched: the desired one with the observed selector and explicit type information. */
  function PreserveSelector(deployment: Deployment, found: Deployment): Deployment {
    deployment.(
      meta := deployment.meta.(typeMeta := DeploymentTypeMeta),
      spec := deployment.spec.(selector := found.spec.selector))
  }

  /** The Service that is updated: the observed one with the desired selector and ports. */
  function OverwriteManaged(found: Service, service: Service): Service {
    found.(spec := found.spec.(selector := service.spec.selector, ports := service.spec.ports))
  }

  /** Whether two Service specs agree on the fields the reconciler manages. */
  predicate SameManagedFields(a: ServiceSpec, b: ServiceSpec) {
    a.selector == b.selector && a.ports == b.ports
  }

  /** Creates or patches the Deployment `desired`, owned by `owner`. */
  function ApplyDeployment(cluster: Cluster, scheme: Scheme, owner: Owner, desired: Deployment)
    : (r: Reconciled<Deployment>)
    // Binding comes first: when it fails, nothing reaches the control plane.
    ensures owner.typeName !in scheme ==>
              && r.calls == []
              && r.cluster == cluster
              && r.outcome.Failed? && r.outcome.error.ControllerReferenceFailed?
              && r.desired == desired
    // Otherwise one read of the desired key, then at most one write.
    ensures owner.typeName in scheme ==>
              && 1 <= |r.calls| <= 2
              && r.calls[0] == GetCall(DeploymentKind, KeyOf(desired.meta))
              && (|r.calls| == 2 ==> r.calls[1].IsWrite())
              && r.desired.meta.controller == BoundMeta(owner, desired.meta, scheme).controller
    // Off the patch path the caller's object changes only in its owner reference.
    ensures owner.typeName in scheme && !(|r.calls| == 2 && r.calls[1].PatchCall?) ==>
              r.desired == desired.(meta := BoundMeta(owner, desired.meta, scheme))
    // A failure leaves the control plane unchanged; nothing but the desired key is ever touched.
    ensures r.outcome.Failed? ==> r.cluster == cluster
    ensures r.cluster.services == cluster.services && r.cluster.faults == cluster.faults
    ensures r.cluster.deployments - {KeyOf(desired.meta)} == cluster.deployments - {KeyOf(desired.meta)}
    // A read error other than NotFound is returned wrapped, and nothing is written.
    ensures owner.typeName in scheme && cluster.faults.read.Some? ==>
              && r.calls == [GetCall(DeploymentKind, KeyOf(desired.meta))]
              && r.outcome == Failed(FetchFailed(FetchDeploymentContext, ServerError(cluster.faults.read.value)))
    // NotFound: exactly one create, of the desired object carrying the owner reference.
    ensures owner.typeName in scheme && cluster.faults.read.None? && KeyOf(desired.meta) !in cluster.deployments ==>
              var bound := desired.(meta := BoundMeta(owner, desired.meta, scheme));
              && r.calls == [GetCall(DeploymentKind, KeyOf(desired.meta)), CreateCall(DeploymentObject(bound))]
              && (r.outcome == Created <==> cluster.faults.write.None?)
              && (r.outcome == Created ==> r.cluster.deployments == cluster.deployments[KeyOf(desired.meta) := bound])
              && (r.outcome != Created ==> r.outcome == Failed(WriteFailed(ServerError(cluster.faults.write.value))))
    // No write exactly when the observed spec equals the desired spec.
    ensures r.outcome == Unchanged <==>
              && owner.typeName in scheme
              && cluster.faults.read.None?
              && KeyOf(desired.meta) in cluster.deployments
              && cluster.deployments[KeyOf(desired.meta)].spec == desired.spec
    ensures r.outcome == Unchanged ==> r.cluster == cluster && |r.calls| == 1
    // Drift: one server-side apply of the desired object, with the observed selector kept.
    ensures && owner.typeName in scheme
            && cluster.faults.read.None?
            && KeyOf(desired.meta) in cluster.deployments
            && cluster.deployments[KeyOf(desired.meta)].spec != desired.spec ==>
              var observed := cluster.deployments[KeyOf(desired.meta)];
              && |r.calls| == 2
              && r.calls[1].PatchCall? && r.calls[1].options == ServerSideApply
              && r.calls[1].obj == DeploymentObject(r.desired)
              && r.desired.spec.selector == observed.spec.selector
              && r.desired.spec.(selector := desired.spec.selector) == desired.spec
              && r.desired.meta == BoundMeta(owner, desired.meta, scheme).(typeMeta := DeploymentTypeMeta)
              && (r.outcome == Patched <==> cluster.faults.write.None?)
              && (r.outcome == Patched ==> r.cluster.deployments == cluster.deployments[KeyOf(desired.meta) := r.desired])
              && (r.outcome != Patched ==> r.outcome == Failed(WriteFailed(ServerError(cluster.faults.write.value))))
  {
    match SetControllerReference(owner, desired.meta, scheme)
    case Failure(cause) => Reconciled(cluster, [], Failed(ControllerReferenceFailed(cause)), desired)
    case Success(meta) =>
      var deployment := desired.(meta := meta);
      var key := KeyOf(meta);
      var get := [GetCall(DeploymentKind, key)];
      match Classify(Get(cluster.deployments, cluster.faults, key))
      case Absent =>
        var w := Create(cluster.deployments, cluster.faults, key, deployment);
        Reconciled(cluster.(deployments := w.objects), get + [CreateCall(DeploymentObject(deployment))],
                   WriteOutcome(w.err, Created), deployment)
      case ReadError(e) =>
        Reconciled(cluster, get, Failed(FetchFailed(FetchDeploymentContext, e)), deployment)
      case Found(found) =>
        if found.spec != deployment.spec then
          var patched := PreserveSelector(deployment, found);
          var w := Apply(cluster.deployments, cluster.faults, key, patched);
          Reconciled(cluster.(deployments := w.objects), get + [PatchCall(DeploymentObject(patched), ServerSideApply)],
                     WriteOutcome(w.err, Patched), patched)
        else
          Reconciled(cluster, get, Unchanged, deployment)
  }

  /** Creates or updates the Service `desired`, owned by `owner`. */
  function ApplyService(cluster: Cluster, scheme: Scheme, owner: Owner, desired: Service)
    : (r: Reconciled<Service>)
    // Binding comes first: when it fails, nothing reaches the control plane.
    ensures owner.typeName !in scheme ==>
              && r.calls == []
              && r.cluster == cluster
              && r.outcome.Failed? && r.outcome.error.ControllerReferenceFailed?
              && r.desired == desired
    // Otherwise one read of the desired key, then at most one write.
    ensures owner.typeName in scheme ==>
              && 1 <= |r.calls| <= 2
              && r.calls[0] == GetCall(ServiceKind, KeyOf(desired.meta))
              && (|r.calls| == 2 ==> r.calls[1].IsWrite())
              && r.desired == desired.(meta := BoundMeta(owner, desired.meta, scheme))
    // A failure leaves the control plane unchanged; nothing but the desired key is ever touched.
    ensures r.outcome.Failed? ==> r.cluster == cluster
    ensures r.cluster.deployments == cluster.deployments && r.cluster.faults == cluster.faults
    ensures r.cluster.services - {KeyOf(desired.meta)} == cluster.services - {KeyOf(desired.meta)}
    // A read error other than NotFound is returned wrapped, and nothing is written.
    ensures owner.typeName in scheme && cluster.faults.read.Some? ==>
              && r.calls == [GetCall(ServiceKind, KeyOf(desired.meta))]
              && r.outcome == Failed(FetchFailed(FetchServiceContext, ServerError(cluster.faults.read.value)))
    // NotFound: exactly one create, of the desired object carrying the owner reference.
    ensures owner.typeName in scheme && cluster.faults.read.None? && KeyOf(desired.meta) !in cluster.services ==>
              var bound := desired.(meta := BoundMeta(owner, desired.meta, scheme));
              && r.calls == [GetCall(ServiceKind, KeyOf(desired.meta)), CreateCall(ServiceObject(bound))]
              && (r.outcome == Created <==> cluster.faults.write.None?)
              && (r.outcome == Created ==> r.cluster.services == cluster.services[KeyOf(desired.meta) := bound])
              && (r.outcome != Created ==> r.outcome == Failed(WriteFailed(ServerError(cluster.faults.write.value))))
    // No write exactly when selector and ports agree, whatever the other observed fields hold.
    ensures r.outcome == Unchanged <==>
              && owner.typeName in scheme
              && cluster.faults.read.None?
              && KeyOf(desired.meta) in cluster.services
              && SameManagedFields(cluster.services[KeyOf(desired.meta)].spec, desired.spec)
    ensures r.outcome == Unchanged ==> r.cluster == cluster && |r.calls| == 1
    // Drift: one full update of the observed object with only selector and ports replaced.
    ensures && owner.typeName in scheme
            && cluster.faults.read.None?
            && KeyOf(desired.meta) in cluster.services
            && !SameManagedFields(cluster.services[KeyOf(desired.meta)].spec, desired.spec) ==>
              var observed := cluster.services[KeyOf(desired.meta)];
              && |r.calls| == 2
              && r.calls[1].UpdateCall? && r.calls[1].obj.ServiceObject?
              && var sent := r.calls[1].obj.service;
              && sent.meta == observed.meta
              && SameManagedFields(sent.spec, desired.spec)
              && sent.spec.(selector := observed.spec.selector, ports := observed.spec.ports) == observed.spec
              && (r.outcome == Updated <==> cluster.faults.write.None?)
              && (r.outcome == Updated ==> r.cluster.services == cluster.services[KeyOf(desired.meta) := sent])
              && (r.outcome != Updated ==> r.outcome == Failed(WriteFailed(ServerError(cluster.faults.write.value))))
  {
    match SetControllerReference(owner, desired.meta, scheme)
    case Failure(cause) => Reconciled(cluster, [], Failed(ControllerReferenceFailed(cause)), desired)
    case Success(meta) =>
      var service := desired.(meta := meta);
      var key := KeyOf(meta);
      var get := [GetCall(ServiceKind, key)];
      match Classify(Get(cluster.services, cluster.faults, key))
      case Absent =>
        var w := Create(cluster.services, cluster.faults, key, service);
        Reconciled(cluster.(services := w.objects), get + [CreateCall(ServiceObject(service))],
                   WriteOutcome(w.err, Created), service)
      case ReadError(e) =>
        Reconciled(cluster, get, Failed(FetchFailed(FetchServiceContext, e)), service)
      case Found(found) =>
        if found.spec.selector != service.spec.selector || found.spec.ports != service.spec.ports then
          var updated := OverwriteManaged(found, service);
          var w := Update(cluster.services, cluster.faults, key, updated);
          Reconciled(cluster.(services := w.objects), get + [UpdateCall(ServiceObject(updated))],
                     WriteOutcome(w.err, Updated), service)
        else
          Reconciled(cluster, get, Unchanged, service)
  }
}
