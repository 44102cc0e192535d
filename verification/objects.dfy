/**
 * The API objects the reconciler handles: object metadata with its controller
 * owner reference, and the Deployment and Service kinds reduced to the fields
 * their reconciliation looks at. Every field is a plain value, so datatype
 * equality plays the role of a deep structural comparison.
 */
module Objects {
  import opened Wrappers

  /** A label map: a selector, or the labels of a pod template. */
  type Labels = map<string, string>

  /** The namespaced name an object is stored and fetched under. */
  datatype Key = Key(namespace: string, name: string)

  /** The group/version and kind an object declares about itself. */
  datatype TypeMeta = TypeMeta(apiVersion: string, kind: string)

  /** A back-reference from a managed object to the resource that owns it. */
  datatype OwnerRef = OwnerRef(
    apiVersion: string,
    kind: string,
    name: string,
    uid: string,
    controller: bool,
    blockOwnerDeletion: bool)

  /** Object metadata; `controller` is the controlling owner reference, if any. */
  datatype Meta = Meta(
    typeMeta: TypeMeta,
    namespace: string,
    name: string,
    labels: Labels,
    controller: Option<OwnerRef>)

  /** The key under which an object with this metadata is stored. */
  function KeyOf(m: Meta): Key {
    Key(m.namespace, m.name)
  }

  datatype Container = Container(name: string, image: string, args: seq<string>, ports: seq<int>)

  datatype PodTemplate = PodTemplate(labels: Labels, containers: seq<Container>)

  /** The mutable spec of a workload; `selector` cannot change once the object exists. */
  datatype DeploymentSpec = DeploymentSpec(replicas: int, selector: Labels, template: PodTemplate)

  datatype Deployment = Deployment(meta: Meta, spec: DeploymentSpec)

  datatype ServicePort = ServicePort(name: string, protocol: string, port: int, targetPort: int)

  /**
   * The spec of a network endpoint. The reconciler manages `selector` and
   * `ports`; `serviceType` and `clusterIP` may be set or allocated by others.
   */
  datatype ServiceSpec = ServiceSpec(
    selector: Labels,
    ports: seq<ServicePort>,
    serviceType: string,
    clusterIP: string)

  datatype Service = Service(meta: Meta, spec: ServiceSpec)

  datatype Kind = DeploymentKind | ServiceKind

  /** An object of either kind, as it travels in a request to the control plane. */
  datatype Object = DeploymentObject(deployment: Deployment) | ServiceObject(service: Service)
}
