/**
 * The ownership binder: records on a managed object a controller reference to
 * the resource that owns it, so that the control plane's garbage collector
 * deletes the managed object with its owner.
 */
module Ownership {
  import opened Wrappers
  import opened Objects

  /** The owning resource instance: its Go type name, its name and its uid. */
  datatype Owner = Owner(typeName: string, name: string, uid: string)

  /** The type registry: which group/version/kind each known Go type has. */
  type Scheme = map<string, TypeMeta>

  /** The controller reference that points at `owner`, whose kind is `gvk`. */
  function ControllerRefFor(gvk: TypeMeta, owner: Owner): OwnerRef {
    OwnerRef(gvk.apiVersion, gvk.kind, owner.name, owner.uid, true, true)
  }

  /** `m` with its controller reference pointing at `owner`, whose type the scheme resolves. */
  function BoundMeta(owner: Owner, m: Meta, scheme: Scheme): Meta
    requires owner.typeName in scheme
  {
    m.(controller := Some(ControllerRefFor(scheme[owner.typeName], owner)))
  }

  /**
   * Attaches a controller reference to `owner` to the metadata `m`. It fails,
   * as a configuration error, exactly when the owner's type is not registered
   * in the scheme; otherwise only the controller reference changes, and it then
   * names the owner with the group/version and kind the scheme gives it.
   */
  function SetControllerReference(owner: Owner, m: Meta, scheme: Scheme): (r: Result<Meta, string>)
    ensures r.Failure? <==> owner.typeName !in scheme
    ensures r.Success? ==> r.value.(controller := m.controller) == m
    ensures r.Success? ==>
              && r.value.controller == Some(ControllerRefFor(scheme[owner.typeName], owner))
              && r.value.controller.value.apiVersion == scheme[owner.typeName].apiVersion
              && r.value.controller.value.kind == scheme[owner.typeName].kind
              && r.value.controller.value.controller
              && r.value.controller.value.blockOwnerDeletion
  {
    if owner.typeName in scheme then
      Success(BoundMeta(owner, m, scheme))
    else
      Failure("no kind is registered for the type " + owner.typeName)
  }

  /** Binding is stable: binding already-bound metadata to the same owner changes nothing. */
  lemma BindIsIdempotent(owner: Owner, m: Meta, scheme: Scheme)
    requires owner.typeName in scheme
    ensures SetControllerReference(owner, SetControllerReference(owner, m, scheme).value, scheme)
         == SetControllerReference(owner, m, scheme)
  {
  }
}
