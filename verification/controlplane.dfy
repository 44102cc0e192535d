/**
 * The control-plane API the reconciler talks to, reduced to a value: one store
 * per kind plus the transport faults the next read and the next write will
 * meet. Each call is a pure function of that value.
 */
module ControlPlane {
  import opened Wrappers
  import opened Objects

  /** The errors the API reports. `ServerError` stands for every failure other than the two named ones. */
  datatype ApiError = NotFound(key: Key) | AlreadyExists(key: Key) | ServerError(reason: string)

  /** Transport, authorisation or conflict failures that the next read or write returns. */
  datatype Faults = Faults(read: Option<string>, write: Option<string>)

  /** The control plane: its stored objects by kind and its pending faults. */
  datatype Cluster = Cluster(
    deployments: map<Key, Deployment>,
    services: map<Key, Service>,
    faults: Faults)

  /** The patch type the reconciler sends: a server-side apply. */
  datatype PatchType = ApplyPatch

  /** How a patch is sent: its type, whether conflicting field ownership is forced, and who the field owner is. */
  datatype PatchOptions = PatchOptions(patchType: PatchType, force: bool, fieldOwner: string)

  /** One request sent to the control plane. */
  datatype Call =
    | GetCall(kind: Kind, key: Key)
    | CreateCall(obj: Object)
    | PatchCall(obj: Object, options: PatchOptions)
    | UpdateCall(obj: Object)
  {
    predicate IsWrite() {
      !GetCall?
    }
  }

  /** The store after a write, and the error the write returned, if any. */
  datatype Written<T> = Written(objects: map<Key, T>, err: Option<ApiError>)

  /** Reads the object stored under `key`; a missing key is reported as NotFound. */
  function Get<T>(objects: map<Key, T>, faults: Faults, key: Key): (r: Result<T, ApiError>)
    ensures r.Success? <==> faults.read.None? && key in objects
    ensures r.Success? ==> r.value == objects[key]
    ensures r == Failure(NotFound(key)) <==> faults.read.None? && key !in objects
  {
    if faults.read.Some? then Failure(ServerError(faults.read.value))
    else if key in objects then Success(objects[key])
    else Failure(NotFound(key))
  }

  /** Stores a new object; an existing key is refused with AlreadyExists. */
  function Create<T>(objects: map<Key, T>, faults: Faults, key: Key, obj: T): (w: Written<T>)
    ensures w.err.None? <==> faults.write.None? && key !in objects
    ensures w.err.None? ==> key in w.objects && w.objects[key] == obj && w.objects - {key} == objects
    ensures w.err.Some? ==> w.objects == objects
  {
    if faults.write.Some? then Written(objects, Some(ServerError(faults.write.value)))
    else if key in objects then Written(objects, Some(AlreadyExists(key)))
    else Written(objects[key := obj], None)
  }

  /**
   * A server-side apply patch. Field-level merging is not modelled: a successful
   * apply leaves the applied object stored under its key, present or not before.
   */
  function Apply<T>(objects: map<Key, T>, faults: Faults, key: Key, obj: T): (w: Written<T>)
    ensures w.err.None? <==> faults.write.None?
    ensures w.err.None? ==> key in w.objects && w.objects[key] == obj && w.objects - {key} == objects - {key}
    ensures w.err.Some? ==> w.objects == objects
  {
    if faults.write.Some? then Written(objects, Some(ServerError(faults.write.value)))
    else Written(objects[key := obj], None)
  }

  /** A full replacement of an existing object; a missing key is reported as NotFound. */
  function Update<T>(objects: map<Key, T>, faults: Faults, key: Key, obj: T): (w: Written<T>)
    ensures w.err.None? <==> faults.write.None? && key in objects
    ensures w.err.None? ==> key in w.objects && w.objects[key] == obj && w.objects - {key} == objects - {key}
    ensures w.err.Some? ==> w.objects == objects
  {
    if faults.write.Some? then Written(objects, Some(ServerError(faults.write.value)))
    else if key !in objects then Written(objects, Some(NotFound(key)))
    else Written(objects[key := obj], None)
  }

  /** The number of write requests among `calls`. */
  function CountWrites(calls: seq<Call>): nat {
    if calls == [] then 0
    else (if calls[0].IsWrite() then 1 else 0) + CountWrites(calls[1..])
  }

  lemma {:induction false} CountWritesAppend(a: seq<Call>, b: seq<Call>)
    ensures CountWrites(a + b) == CountWrites(a) + CountWrites(b)
  {
    if a == [] {
      assert a + b == b;
    } else {
      assert (a + b)[1..] == a[1..] + b;
      CountWritesAppend(a[1..], b);
    }
  }
}
