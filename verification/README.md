# Reconciling Deployments and Services against the control plane

This project models the reconciliation core of the llama-stack Kubernetes
operator, `pkg/deploy/deploy.go`, in Dafny. It also proves properties of that
model. `ApplyDeployment` and `ApplyService` each take a desired object, an owner
and the control plane, and each call does four things in order:

1. It attaches a controller owner reference to the desired object.
2. It reads the observed object under the same namespace and name.
3. It classifies the read as found, NotFound or some other error.
4. It decides among four results: a configuration error, a create, no write,
   or exactly one write.

The two kinds keep separate policies:

- **Deployment.** The whole spec is compared. On drift, the desired object
  gets the observed selector, because a Deployment's selector is immutable.
  Its type information is set to `apps/v1`/`Deployment`. It is then sent as a
  server-side apply patch, with ownership forced and field owner
  `llama-stack-operator`.
- **Service.** Only the selector and the port list are compared. On drift, the
  observed object gets the desired selector and ports and is sent as a full
  update. Every other observed field is kept, including its owner reference.

## Layout

- `wrappers.dfy` (`Wrappers`) defines `Option` and `Result`.
- `objects.dfy` (`Objects`) defines keys, metadata, owner references, and the
  Deployment and Service objects.
  - Specs are plain datatypes, so datatype equality stands in for
    `reflect.DeepEqual`.
- `ownership.dfy` (`Ownership`) defines the owner, the scheme (a Go type name
  mapped to its group/version/kind) and `SetControllerReference`.
- `controlplane.dfy` (`ControlPlane`) models the control-plane API as a value.
  This is the external interface, not part of the modelled source.
  - There is one store per kind, a `map<Key, T>`.
  - The pending read and write faults are part of the value.
  - `Get`, `Create`, `Apply` (server-side apply) and `Update` are pure
    functions of that value.
  - A `Call` log records every request that is sent.
- `deploy.dfy` (`Deploy`) defines the fetch classification, the error and
  outcome types, `ApplyDeployment` and `ApplyService`.
- `properties.dfy` (`Properties`) holds the properties that relate several
  calls:
  - create-then-read;
  - second-call idempotence;
  - repeated invocation with no external change in between.

Each Apply returns a `Reconciled` value with four parts:

- the control plane afterwards;
- the requests sent, in order;
- an `Outcome`: `Created`, `Unchanged`, `Patched`, `Updated` or
  `Failed(error)` (the first four are the source's `nil` error);
- the caller's desired object as the call leaves it.

Three facts about the code shape the model:

- The caller's object is mutated. The owner reference is set on it
  (`deploy.go:21`, `53`). On the Deployment patch path, its selector and type
  information are overwritten too (`deploy.go:40`, `44`).
- Binding comes before the read, on every path (`deploy.go:21-26`, `53-58`).
  So a bind failure sends no request at all.
- The Deployment comparison uses the caller's spec, but the patch keeps the
  observed selector (`deploy.go:36-40`). So while the two selectors differ,
  every call patches again. `Properties.DeploymentRepatchesEveryTime` proves
  this, and `Properties.DeploymentWritesAtMostOnce` proves the converging case.

Read errors other than NotFound are returned wrapped with
`failed to fetch deployment` / `failed to fetch Service`. Write errors are
returned exactly as the API gave them.

## Model

| member | source | states |
|---|---|---|
| Ownership.SetControllerReference | pkg/deploy/deploy.go:21-23 | Binding fails exactly when the owner's type cannot be resolved. On success it changes only the controller reference. That reference then names the owner, with the group/version and kind the scheme resolves, and it is marked as controller and as blocking the owner's deletion. |
| Ownership.BindIsIdempotent | pkg/deploy/deploy.go:53-55 | Binding metadata that is already bound to the same owner changes nothing. |
| Deploy.Classify | pkg/deploy/deploy.go:26-32 | A read is Found exactly when it succeeded and Absent exactly when it failed with NotFound. Every other failure is a ReadError that carries the original error, which is never NotFound. |
| Deploy.ApplyDeployment | pkg/deploy/deploy.go:19-48 | A bind failure sends no request and changes nothing. Otherwise there is one read of the desired key, then at most one write. Off the patch path, the caller's object changes only in its owner reference. A failure leaves the control plane unchanged, and no key other than the desired one is touched. A non-NotFound read error is returned wrapped with no write. NotFound gives exactly one create, of the owner-bound desired object. There is no write exactly when the observed spec equals the desired spec. On drift there is exactly one server-side apply (forced, field owner "llama-stack-operator") of an object with the observed selector, every other spec field from the desired object and the bound metadata. Write errors are returned as the API gave them. |
| Deploy.ApplyService | pkg/deploy/deploy.go:51-73 | A bind failure sends no request and changes nothing. Otherwise there is one read, then at most one write. A failure leaves the control plane unchanged, and only the desired key is touched. A read error is wrapped with no write. NotFound gives exactly one create of the owner-bound desired object. There is no write exactly when selector and ports agree, whatever the other observed fields hold. On drift there is exactly one update of the observed object with its metadata, including the owner reference, kept, the desired selector and ports, and every other spec field unchanged. |
| Properties.DeploymentCreateThenRead | pkg/deploy/deploy.go:26-29 | After a create, reading the key finds the desired spec carrying the controller reference to the owner. |
| Properties.ServiceCreateThenRead | pkg/deploy/deploy.go:58-61 | After a create, reading the key finds the desired spec carrying the controller reference to the owner. |
| Properties.ServiceUpdateKeepsOwner | pkg/deploy/deploy.go:66-70 | An update leaves the stored Service's controller reference as it was before the call. |
| Properties.ServiceSecondCallIsQuiet | pkg/deploy/deploy.go:58-72 | After a call that created, updated or found the Service in sync, a second call with the same desired object only reads and reports Unchanged. |
| Properties.DeploymentSecondCallAfterCreateIsQuiet | pkg/deploy/deploy.go:26-47 | After a create, a second call with the same desired Deployment reports Unchanged. |
| Properties.DeploymentSecondCallAfterPatch | pkg/deploy/deploy.go:36-45 | After a patch, a second call is Unchanged exactly when the caller's selector equals the previously observed one. Otherwise it patches again and leaves the control plane as the first patch left it. |
| Properties.ServiceRepeatsWithoutWrite | pkg/deploy/deploy.go:53-72 | When a Service call writes nothing and changes nothing, n repetitions write nothing, leave the control plane as it is and all have the same outcome. |
| Properties.ServiceWritesAtMostOnce | pkg/deploy/deploy.go:58-72 | When writes succeed and nothing changes between calls, n invocations of the Service path issue at most one write. |
| Properties.DeploymentRepeatsWithoutWrite | pkg/deploy/deploy.go:21-47 | When a Deployment call writes nothing and changes nothing, n repetitions write nothing, leave the control plane as it is and all have the same outcome. |
| Properties.DeploymentWritesAtMostOnce | pkg/deploy/deploy.go:26-47 | Suppose writes succeed, the caller's selector agrees with the stored one (or nothing is stored), and nothing changes between calls. Then n invocations of the Deployment path issue at most one write. |
| Properties.DeploymentRepatchesEveryTime | pkg/deploy/deploy.go:36-45 | While the caller's selector differs from the stored one, each of n invocations patches, for n writes in all, and the stored selector stays the original one. |

## Left out

- `pkg/cluster/cluster.go` is not part of this model. It consists of
  environment reads, a JSON decode and a namespace lookup that is not shown.
- Logging and the `context` argument (cancellation, timeouts) are not modelled.
- `ctrl.SetControllerReference` is modelled as a step that fails exactly when
  the scheme does not know the owner's type. On success it sets a single
  controller field. These library details are not modelled:
  - its namespace checks;
  - its "already owned by another controller" check;
  - its merging into a list of owner references.
- Server-side apply is modelled as storing the sent object. Field-level merge
  and field-ownership tracking are not modelled.
- The optimistic-concurrency version token is not modelled. Conflicts and every
  other write failure are a pending write fault that the next write returns.
- `reflect.DeepEqual` is replaced by datatype equality. The Go difference
  between a nil and an empty map or slice is not modelled, and neither is
  server-side defaulting of unset fields. The quiet-second-call and
  at-most-one-write lemmas therefore assume that the desired object already
  carries every value the server would fill in. If it does not (for example a
  port's defaulted protocol or target port), the comparison at `deploy.go:36`
  or `66` fails on every call and the real code writes every time.
- Deployment and Service specs keep only a few representative fields. Replica
  counts are unbounded integers, not `int32`.
- Concurrent reconciliations and changes made by other writers between the
  read and the write are not modelled. Inside one call the create path
  therefore never meets AlreadyExists, and the update path never meets
  NotFound.
