/**
 * Properties that relate several calls: what a later read sees after a create,
 * what a second invocation does after the first converged, and what a caller
 * that re-invokes reconciliation n times with no external change observes.
 */
module Properties {
  import opened Wrappers
  import opened Objects
  import opened Ownership
  import opened ControlPlane
  import opened Deploy

  /** The caller's view of n invocations in a row: final control plane, every request, every outcome. */
  datatype Run = Run(cluster: Cluster, calls: seq<Call>, outcomes: seq<Outcome>)

  /** Invokes ApplyService n times with the same freshly built desired object. */
  function RepeatApplyService(cluster: Cluster, scheme: Scheme, owner: Owner, desired: Service, n: nat): (run: Run)
    ensures |run.outcomes| == n
    ensures |run.calls| <= 2 * n
    decreases n
  {
    if n == 0 then Run(cluster, [], [])
    else
      var r := ApplyService(cluster, scheme, owner, desired);
      var rest := RepeatApplyService(r.cluster, scheme, owner, desired, n - 1);
      Run(rest.cluster, r.calls + rest.calls, [r.outcome] + rest.outcomes)
  }

  /** Invokes ApplyDeployment n times with the same freshly built desired object. */
  function RepeatApplyDeployment(cluster: Cluster, scheme: Scheme, owner: Owner, desired: Deployment, n: nat): (run: Run)
    ensures |run.outcomes| == n
    ensures |run.calls| <= 2 * n
    decreases n
  {
    if n == 0 then Run(cluster, [], [])
    else
      var r := ApplyDeployment(cluster, scheme, owner, desired);
      var rest := RepeatApplyDeployment(r.cluster, scheme, owner, desired, n - 1);
      Run(rest.cluster, r.calls + rest.calls, [r.outcome] + rest.outcomes)
  }

  /** After a create, reading the key finds the desired spec carrying the owner's controller reference. */
  lemma DeploymentCreateThenRead(cluster: Cluster, scheme: Scheme, owner: Owner, desired: Deployment)
    requires ApplyDeployment(cluster, scheme, owner, desired).outcome == Created
    ensures var after := ApplyDeployment(cluster, scheme, owner, desired).cluster;
            match Classify(Get(after.deployments, after.faults, KeyOf(desired.meta)))
            case Found(obj) =>
              && obj.spec == desired.spec
              && obj.meta.controller == Some(ControllerRefFor(scheme[owner.typeName], owner))
            case _ => false
  {
  }

  /** After a create, reading the key finds the desired spec carrying the owner's controller reference. */
  lemma ServiceCreateThenRead(cluster: Cluster, scheme: Scheme, owner: Owner, desired: Service)
    requires ApplyService(cluster, scheme, owner, desired).outcome == Created
    ensures var after := ApplyService(cluster, scheme, owner, desired).cluster;
            match Classify(Get(after.services, after.faults, KeyOf(desired.meta)))
            case Found(obj) =>
              && obj.spec == desired.spec
              && obj.meta.controller == Some(ControllerRefFor(scheme[owner.typeName], owner))
            case _ => false
  {
  }

  /** An update never alters the owner reference the stored Service already had. */
  lemma ServiceUpdateKeepsOwner(cluster: Cluster, scheme: Scheme, owner: Owner, desired: Service)
    requires ApplyService(cluster, scheme, owner, desired).outcome == Updated
    ensures KeyOf(desired.meta) in cluster.services
    ensures var after := ApplyService(cluster, scheme, owner, desired).cluster;
            && KeyOf(desired.meta) in after.services
            && after.services[KeyOf(desired.meta)].meta.controller == cluster.services[KeyOf(desired.meta)].meta.controller
  {
  }

  /**
   * Service idempotence: once a call has created, updated or found the Service
   * in sync, a second call with the same desired object only reads.
   */
  lemma ServiceSecondCallIsQuiet(cluster: Cluster, scheme: Scheme, owner: Owner, desired: Service)
    requires !ApplyService(cluster, scheme, owner, desired).outcome.Failed?
    ensures var first := ApplyService(cluster, scheme, owner, desired);
            ApplyService(first.cluster, scheme, owner, desired)
              == Reconciled(first.cluster, [GetCall(ServiceKind, KeyOf(desired.meta))], Unchanged, first.desired)
  {
  }

  /** After a create, a second call with the same desired Deployment only reads. */
  lemma DeploymentSecondCallAfterCreateIsQuiet(cluster: Cluster, scheme: Scheme, owner: Owner, desired: Deployment)
    requires ApplyDeployment(cluster, scheme, owner, desired).outcome == Created
    ensures var first := ApplyDeployment(cluster, scheme, owner, desired);
            ApplyDeployment(first.cluster, scheme, owner, desired).outcome == Unchanged
  {
  }

  /**
   * After a patch, a second call is quiet exactly when the caller's selector
   * already was the observed one; otherwise it patches the same object again.
   */
  lemma DeploymentSecondCallAfterPatch(cluster: Cluster, scheme: Scheme, owner: Owner, desired: Deployment)
    requires ApplyDeployment(cluster, scheme, owner, desired).outcome == Patched
    ensures KeyOf(desired.meta) in cluster.deployments
    ensures var first := ApplyDeployment(cluster, scheme, owner, desired);
            var second := ApplyDeployment(first.cluster, scheme, owner, desired);
            && (second.outcome == Unchanged <==> cluster.deployments[KeyOf(desired.meta)].spec.selector == desired.spec.selector)
            && (second.outcome != Unchanged ==> second.outcome == Patched && second.cluster == first.cluster)
  {
  }

  /** A Service call that writes nothing changes nothing, so every repetition of it is the same call. */
  lemma {:induction false} ServiceRepeatsWithoutWrite(cluster: Cluster, scheme: Scheme, owner: Owner, desired: Service, n: nat)
    requires ApplyService(cluster, scheme, owner, desired).cluster == cluster
    requires CountWrites(ApplyService(cluster, scheme, owner, desired).calls) == 0
    ensures var run := RepeatApplyService(cluster, scheme, owner, desired, n);
            && run.cluster == cluster
            && CountWrites(run.calls) == 0
            && forall i :: 0 <= i < n ==> run.outcomes[i] == ApplyService(cluster, scheme, owner, desired).outcome
    decreases n
  {
    if n > 0 {
      var r := ApplyService(cluster, scheme, owner, desired);
      var rest := RepeatApplyService(cluster, scheme, owner, desired, n - 1);
      ServiceRepeatsWithoutWrite(cluster, scheme, owner, desired, n - 1);
      CountWritesAppend(r.calls, rest.calls);
    }
  }

  /**
   * At-least-once invocation of the Service path: with writes succeeding and
   * no external change between calls, n invocations issue at most one write.
   */
  lemma {:induction false} ServiceWritesAtMostOnce(cluster: Cluster, scheme: Scheme, owner: Owner, desired: Service, n: nat)
    requires cluster.faults.write.None?
    ensures CountWrites(RepeatApplyService(cluster, scheme, owner, desired, n).calls) <= 1
  {
    if n > 0 {
      var r := ApplyService(cluster, scheme, owner, desired);
      var rest := RepeatApplyService(r.cluster, scheme, owner, desired, n - 1);
      CountWritesAppend(r.calls, rest.calls);
      if r.outcome.Failed? || r.outcome == Unchanged {
        assert CountWrites(r.calls) == 0 by {
          assert |r.calls| <= 1;
        }
        ServiceRepeatsWithoutWrite(cluster, scheme, owner, desired, n - 1);
      } else {
        ServiceSecondCallIsQuiet(cluster, scheme, owner, desired);
        var second := ApplyService(r.cluster, scheme, owner, desired);
        assert CountWrites(second.calls) == 0 by {
          assert second.calls == [GetCall(ServiceKind, KeyOf(desired.meta))];
        }
        ServiceRepeatsWithoutWrite(r.cluster, scheme, owner, desired, n - 1);
        assert CountWrites(r.calls) <= |r.calls| - 1 by {
          assert !r.calls[0].IsWrite();
        }
      }
    }
  }

  /** A Deployment call that writes nothing changes nothing, so every repetition of it is the same call. */
  lemma {:induction false} DeploymentRepeatsWithoutWrite(cluster: Cluster, scheme: Scheme, owner: Owner, desired: Deployment, n: nat)
    requires ApplyDeployment(cluster, scheme, owner, desired).cluster == cluster
    requires CountWrites(ApplyDeployment(cluster, scheme, owner, desired).calls) == 0
    ensures var run := RepeatApplyDeployment(cluster, scheme, owner, desired, n);
            && run.cluster == cluster
            && CountWrites(run.calls) == 0
            && forall i :: 0 <= i < n ==> run.outcomes[i] == ApplyDeployment(cluster, scheme, owner, desired).outcome
    decreases n
  {
    if n > 0 {
      var r := ApplyDeployment(cluster, scheme, owner, desired);
      var rest := RepeatApplyDeployment(cluster, scheme, owner, desired, n - 1);
      DeploymentRepeatsWithoutWrite(cluster, scheme, owner, desired, n - 1);
      CountWritesAppend(r.calls, rest.calls);
    }
  }

  /**
   * The Deployment path converges when the caller's selector agrees with the
   * stored one (or nothing is stored yet): with writes succeeding and no
   * external change between calls, n invocations issue at most one write.
   */
  lemma {:induction false} DeploymentWritesAtMostOnce(cluster: Cluster, scheme: Scheme, owner: Owner, desired: Deployment, n: nat)
    requires cluster.faults.write.None?
    requires KeyOf(desired.meta) in cluster.deployments ==>
               cluster.deployments[KeyOf(desired.meta)].spec.selector == desired.spec.selector
    ensures CountWrites(RepeatApplyDeployment(cluster, scheme, owner, desired, n).calls) <= 1
  {
    if n > 0 {
      var r := ApplyDeployment(cluster, scheme, owner, desired);
      var rest := RepeatApplyDeployment(r.cluster, scheme, owner, desired, n - 1);
      CountWritesAppend(r.calls, rest.calls);
      if r.outcome.Failed? || r.outcome == Unchanged {
        assert CountWrites(r.calls) == 0 by {
          assert |r.calls| <= 1;
        }
        DeploymentRepeatsWithoutWrite(cluster, scheme, owner, desired, n - 1);
      } else {
        if r.outcome == Created {
          DeploymentSecondCallAfterCreateIsQuiet(cluster, scheme, owner, desired);
        } else {
          DeploymentSecondCallAfterPatch(cluster, scheme, owner, desired);
        }
        var second := ApplyDeployment(r.cluster, scheme, owner, desired);
        assert CountWrites(second.calls) == 0 by {
          assert |second.calls| == 1;
        }
        DeploymentRepeatsWithoutWrite(r.cluster, scheme, owner, desired, n - 1);
        assert CountWrites(r.calls) <= |r.calls| - 1 by {
          assert !r.calls[0].IsWrite();
        }
      }
    }
  }

  /**
   * The Deployment path is not idempotent in general: while the caller's
   * selector differs from the stored one, every invocation patches again, so
   * n invocations issue n writes and the stored object stays the same after the first.
   */
  lemma {:induction false} DeploymentRepatchesEveryTime(cluster: Cluster, scheme: Scheme, owner: Owner, desired: Deployment, n: nat)
    requires owner.typeName in scheme
    requires cluster.faults == Faults(None, None)
    requires KeyOf(desired.meta) in cluster.deployments
    requires cluster.deployments[KeyOf(desired.meta)].spec.selector != desired.spec.selector
    ensures var run := RepeatApplyDeployment(cluster, scheme, owner, desired, n);
            && CountWrites(run.calls) == n
            && (forall i :: 0 <= i < n ==> run.outcomes[i] == Patched)
            && KeyOf(desired.meta) in run.cluster.deployments
            && run.cluster.deployments[KeyOf(desired.meta)].spec.selector == cluster.deployments[KeyOf(desired.meta)].spec.selector
    decreases n
  {
    if n > 0 {
      var r := ApplyDeployment(cluster, scheme, owner, desired);
      var rest := RepeatApplyDeployment(r.cluster, scheme, owner, desired, n - 1);
      DeploymentRepatchesEveryTime(r.cluster, scheme, owner, desired, n - 1);
      CountWritesAppend(r.calls, rest.calls);
      assert CountWrites(r.calls) == 1 by {
        assert !r.calls[0].IsWrite() && r.calls[1].IsWrite();
        assert r.calls[2..] == [];
      }
    }
  }
}
