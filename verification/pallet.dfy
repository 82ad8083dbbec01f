/**
  The DDC Nodes pallet: a registry of nodes kept in two independent maps,
  one per node kind, keyed by the node's public key. The repository layer
  checks existence only: `Create`, `Get` and `Update` refuse a taken or
  missing key, while `Remove` deletes without checking. The pallet's
  calls (`CreateNode`, `RemoveNode`) add construction, authorisation and
  cluster-assignment checks on top. The caller's account is a plain
  parameter: origin checking happens outside this model.
 */
module DdcNodes {
  import opened Wrappers
  import opened Primitives
  import opened NodeTypes
  import opened Nodes

  /** Pallet storage: `StorageNodes` and `CDNNodes`. */
  datatype Registry = Registry(
    storageNodes: map<StorageNodePubKey, StorageNode>,
    cdnNodes: map<CDNNodePubKey, CDNNode>)

  const Empty := Registry(map[], map[])

  /** A key is registered when its own kind's map holds it. */
  predicate Contains(reg: Registry, k: NodePubKey)
  {
    match k
    case StoragePubKey(b) => b in reg.storageNodes
    case CDNPubKey(b) => b in reg.cdnNodes
  }

  /** Every stored node sits under its own public key. */
  ghost predicate WellFormed(reg: Registry)
  {
    && (forall b :: b in reg.storageNodes ==> reg.storageNodes[b].pubKey == b)
    && (forall b :: b in reg.cdnNodes ==> reg.cdnNodes[b].pubKey == b)
  }

  /** No stored node is assigned to a cluster. */
  ghost predicate AllUnassigned(reg: Registry)
  {
    && (forall b :: b in reg.storageNodes ==> reg.storageNodes[b].clusterId.None?)
    && (forall b :: b in reg.cdnNodes ==> reg.cdnNodes[b].clusterId.None?)
  }

  /**
    Looks a key up in its own kind's map and wraps the stored record in the
    key's variant; an absent key is reported with its kind's error.
   */
  function Get(reg: Registry, k: NodePubKey): (r: Result<Node, NodeRepositoryError>)
    ensures r.Ok? <==> Contains(reg, k)
    ensures r.Ok? ==> GetType(r.value) == KeyType(k)
    ensures r.Ok? && WellFormed(reg) ==> KeyOf(r.value) == k
    ensures r.Err? ==>
      r.error == (if k.StoragePubKey? then StorageNodeDoesNotExist else CDNNodeDoesNotExist)
  {
    match k
    case StoragePubKey(b) =>
      if b in reg.storageNodes then Ok(Node.Storage(reg.storageNodes[b]))
      else Err(StorageNodeDoesNotExist)
    case CDNPubKey(b) =>
      if b in reg.cdnNodes then Ok(Node.CDN(reg.cdnNodes[b]))
      else Err(CDNNodeDoesNotExist)
  }

  /**
    Inserts a node under its own key unless that key is already taken in its
    kind's map. On success exactly that entry is added; the other kind's map
    is never touched.
   */
  function Create(reg: Registry, node: Node): (r: Step<Registry, NodeRepositoryError>)
    ensures r.result.Err? <==> Contains(reg, KeyOf(node))
    ensures r.result.Err? ==>
      && r.state == reg
      && r.result.error == (if node.Storage? then StorageNodeAlreadyExists else CDNNodeAlreadyExists)
    ensures r.result.Ok? ==> Get(r.state, KeyOf(node)) == Ok(node)
    ensures forall k :: k != KeyOf(node) ==> Get(r.state, k) == Get(reg, k)
    ensures node.CDN? ==> r.state.storageNodes == reg.storageNodes
    ensures node.Storage? ==> r.state.cdnNodes == reg.cdnNodes
    ensures WellFormed(reg) ==> WellFormed(r.state)
  {
    match node
    case Storage(n) =>
      if n.pubKey in reg.storageNodes then Fail(reg, StorageNodeAlreadyExists)
      else Done(reg.(storageNodes := reg.storageNodes[n.pubKey := n]))
    case CDN(n) =>
      if n.pubKey in reg.cdnNodes then Fail(reg, CDNNodeAlreadyExists)
      else Done(reg.(cdnNodes := reg.cdnNodes[n.pubKey := n]))
  }

  /**
    Overwrites the node stored under the given node's key, which must already
    be registered. No key is added or removed.
   */
  function Update(reg: Registry, node: Node): (r: Step<Registry, NodeRepositoryError>)
    ensures r.result.Err? <==> !Contains(reg, KeyOf(node))
    ensures r.result.Err? ==>
      && r.state == reg
      && r.result.error == (if node.Storage? then StorageNodeDoesNotExist else CDNNodeDoesNotExist)
    ensures r.result.Ok? ==> Get(r.state, KeyOf(node)) == Ok(node)
    ensures forall k :: k != KeyOf(node) ==> Get(r.state, k) == Get(reg, k)
    ensures forall k :: Contains(r.state, k) <==> Contains(reg, k)
    ensures WellFormed(reg) ==> WellFormed(r.state)
  {
    match node
    case Storage(n) =>
      if n.pubKey !in reg.storageNodes then Fail(reg, StorageNodeDoesNotExist)
      else Done(reg.(storageNodes := reg.storageNodes[n.pubKey := n]))
    case CDN(n) =>
      if n.pubKey !in reg.cdnNodes then Fail(reg, CDNNodeDoesNotExist)
      else Done(reg.(cdnNodes := reg.cdnNodes[n.pubKey := n]))
  }

  /**
    Deletes whatever is stored under a key. It never fails, removes only that
    key, and leaves the registry as it was when the key is absent.
   */
  function Remove(reg: Registry, k: NodePubKey): (r: Step<Registry, NodeRepositoryError>)
    ensures r.result == Ok(())
    ensures !Contains(r.state, k)
    ensures forall k' :: k' != k ==> Get(r.state, k') == Get(reg, k')
    ensures !Contains(reg, k) ==> r.state == reg
    ensures WellFormed(reg) ==> WellFormed(r.state)
    ensures AllUnassigned(reg) ==> AllUnassigned(r.state)
  {
    match k
    case StoragePubKey(b) => Done(reg.(storageNodes := reg.storageNodes - {b}))
    case CDNPubKey(b) => Done(reg.(cdnNodes := reg.cdnNodes - {b}))
  }

  /** Removing twice is removing once. */
  lemma RemoveIdempotent(reg: Registry, k: NodePubKey)
    ensures Remove(Remove(reg, k).state, k) == Remove(reg, k)
  {
  }

  /**
    `From<NodeRepositoryError> for Error`: both duplicate-key errors become
    `NodeAlreadyExists` and both missing-key errors become `NodeDoesNotExist`.
   */
  function RepositoryErrorToError(e: NodeRepositoryError): (r: Error)
    ensures r == NodeAlreadyExists <==> e.StorageNodeAlreadyExists? || e.CDNNodeAlreadyExists?
    ensures r == NodeDoesNotExist <==> e.StorageNodeDoesNotExist? || e.CDNNodeDoesNotExist?
  {
    match e
    case StorageNodeAlreadyExists => NodeAlreadyExists
    case CDNNodeAlreadyExists => NodeAlreadyExists
    case StorageNodeDoesNotExist => NodeDoesNotExist
    case CDNNodeDoesNotExist => NodeDoesNotExist
  }

  /**
    `create_node`: builds a node owned by the caller from the key and params,
    then registers it. Construction errors come first, then a taken key. On
    success the key holds an unassigned node of the caller with exactly the
    given bytes, and every other key is untouched.
   */
  function CreateNode(reg: Registry, caller: AccountId, nodePubKey: NodePubKey, nodeParams: NodeParams)
    : (r: Step<Registry, Error>)
    ensures r.result.Ok? <==>
      && KeyType(nodePubKey) == ParamsType(nodeParams)
      && |ParamsBytes(nodeParams)| <= MaxParamsLen(KeyType(nodePubKey))
      && !Contains(reg, nodePubKey)
    ensures KeyType(nodePubKey) != ParamsType(nodeParams) ==>
      r.result == Err(InvalidNodeParams)
    ensures KeyType(nodePubKey) == ParamsType(nodeParams)
            && |ParamsBytes(nodeParams)| > MaxParamsLen(KeyType(nodePubKey)) ==>
      r.result == Err(NodeParamsExceedsLimit)
    ensures KeyType(nodePubKey) == ParamsType(nodeParams)
            && |ParamsBytes(nodeParams)| <= MaxParamsLen(KeyType(nodePubKey))
            && Contains(reg, nodePubKey) ==>
      r.result == Err(NodeAlreadyExists)
    ensures r.result.Err? ==> r.state == reg
    ensures r.result.Ok? ==>
      && Get(r.state, nodePubKey).Ok?
      && GetProviderId(Get(r.state, nodePubKey).value) == caller
      && GetClusterId(Get(r.state, nodePubKey).value) == None
      && PropsRefBytes(GetProps(Get(r.state, nodePubKey).value)) == ParamsBytes(nodeParams)
    ensures forall k :: k != nodePubKey ==> Get(r.state, k) == Get(reg, k)
    ensures WellFormed(reg) ==> WellFormed(r.state)
    ensures AllUnassigned(reg) ==> AllUnassigned(r.state)
  {
    match New(nodePubKey, caller, nodeParams)
    case Err(e) => Fail(reg, NodeErrorToError(e))
    case Ok(node) =>
      var s := Create(reg, node);
      match s.result
      case Err(e) => Fail(reg, RepositoryErrorToError(e))
      case Ok(_) => Done(s.state)
  }

  /**
    `remove_node`: the key must be registered, the caller must be its
    provider, and the node must not be assigned to a cluster, checked in that
    order. On success only that key is gone; on any error nothing changes.
   */
  function RemoveNode(reg: Registry, caller: AccountId, nodePubKey: NodePubKey)
    : (r: Step<Registry, Error>)
    ensures !Contains(reg, nodePubKey) ==> r.result == Err(NodeDoesNotExist)
    ensures Contains(reg, nodePubKey)
            && GetProviderId(Get(reg, nodePubKey).value) != caller ==>
      r.result == Err(OnlyNodeProvider)
    ensures Contains(reg, nodePubKey)
            && GetProviderId(Get(reg, nodePubKey).value) == caller
            && GetClusterId(Get(reg, nodePubKey).value).Some? ==>
      r.result == Err(NodeIsAssignedToCluster)
    ensures r.result.Ok? <==>
      && Contains(reg, nodePubKey)
      && GetProviderId(Get(reg, nodePubKey).value) == caller
      && GetClusterId(Get(reg, nodePubKey).value).None?
    ensures r.result.Err? ==> r.state == reg
    ensures r.result.Ok? ==> !Contains(r.state, nodePubKey)
    ensures forall k :: k != nodePubKey ==> Get(r.state, k) == Get(reg, k)
  {
    match Get(reg, nodePubKey)
    case Err(e) => Fail(reg, RepositoryErrorToError(e))
    case Ok(node) =>
      if GetProviderId(node) != caller then Fail(reg, OnlyNodeProvider)
      else if GetClusterId(node).Some? then Fail(reg, NodeIsAssignedToCluster)
      else
        var s := Remove(reg, nodePubKey);
        match s.result
        case Err(e) => Fail(reg, RepositoryErrorToError(e))
        case Ok(_) => Done(s.state)
  }

  /**
    Creating a node and then having its provider remove it gives back the
    registry exactly as it was before the creation.
   */
  lemma CreateThenRemoveRestores(reg: Registry, caller: AccountId, nodePubKey: NodePubKey, nodeParams: NodeParams)
    requires CreateNode(reg, caller, nodePubKey, nodeParams).result.Ok?
    ensures RemoveNode(CreateNode(reg, caller, nodePubKey, nodeParams).state, caller, nodePubKey)
            == Step(Ok(()), reg)
  {
    var node := New(nodePubKey, caller, nodeParams).value;
    match node
    case Storage(n) => InsertThenDeleteIsIdentity(reg.storageNodes, n.pubKey, n);
    case CDN(n) => InsertThenDeleteIsIdentity(reg.cdnNodes, n.pubKey, n);
  }

  lemma InsertThenDeleteIsIdentity<K, V>(m: map<K, V>, k: K, v: V)
    requires k !in m
    ensures m[k := v] - {k} == m
  {
  }

  /**
    At the call level a CDN node with exactly 2048 bytes of params is
    registered under a free key. With 2049 bytes or more the call is refused
    with `NodeParamsExceedsLimit` on every registry, taken key or not, because
    construction fails before the key is looked up; nothing changes, so a free
    key stays free.
   */
  lemma CreateNodeBoundary(reg: Registry, caller: AccountId, pubKey: CDNNodePubKey, bytes: seq<Byte>)
    ensures |bytes| == 2048 && !Contains(reg, CDNPubKey(pubKey)) ==>
      CreateNode(reg, caller, CDNPubKey(pubKey), CDNParams(CDNNodeParams(bytes))).result.Ok?
    ensures |bytes| >= 2049 ==>
      CreateNode(reg, caller, CDNPubKey(pubKey), CDNParams(CDNNodeParams(bytes)))
        == Step(Err(NodeParamsExceedsLimit), reg)
    ensures |bytes| >= 2049 && !Contains(reg, CDNPubKey(pubKey)) ==>
      !Contains(CreateNode(reg, caller, CDNPubKey(pubKey), CDNParams(CDNNodeParams(bytes))).state,
                CDNPubKey(pubKey))
  {
  }

  /**
    An assigned node cannot be removed by anyone: its provider is told it is
    assigned, every other caller that they are not its provider.
   */
  lemma AssignedNodeIsNeverRemoved(reg: Registry, caller: AccountId, nodePubKey: NodePubKey)
    requires Contains(reg, nodePubKey)
    requires GetClusterId(Get(reg, nodePubKey).value).Some?
    ensures RemoveNode(reg, caller, nodePubKey).result
            == Err(if GetProviderId(Get(reg, nodePubKey).value) == caller
                   then NodeIsAssignedToCluster else OnlyNodeProvider)
    ensures RemoveNode(reg, caller, nodePubKey).state == reg
  {
  }

  /** A call of the pallet, made by an already authenticated account. */
  datatype Call =
    | CreateNodeCall(caller: AccountId, nodePubKey: NodePubKey, nodeParams: NodeParams)
    | RemoveNodeCall(caller: AccountId, nodePubKey: NodePubKey)

  function Dispatch(reg: Registry, call: Call): (r: Step<Registry, Error>)
    ensures forall k :: k != call.nodePubKey ==> Get(r.state, k) == Get(reg, k)
    ensures WellFormed(reg) ==> WellFormed(r.state)
    ensures AllUnassigned(reg) ==> AllUnassigned(r.state)
  {
    match call
    case CreateNodeCall(caller, k, params) => CreateNode(reg, caller, k, params)
    case RemoveNodeCall(caller, k) => RemoveNode(reg, caller, k)
  }

  /**
    The registry after the runtime has applied a sequence of calls one at a
    time, each committing its whole effect or none of it. Well-formedness and
    the absence of cluster assignments survive any such sequence.
   */
  function Run(reg: Registry, calls: seq<Call>): (r: Registry)
    ensures WellFormed(reg) ==> WellFormed(r)
    ensures AllUnassigned(reg) ==> AllUnassigned(r)
    decreases |calls|
  {
    if |calls| == 0 then reg
    else Run(Dispatch(reg, calls[0]).state, calls[1..])
  }

  /** Keys that no call in the sequence names come out of it unchanged. */
  lemma {:induction false} RunLeavesUnnamedKeys(reg: Registry, calls: seq<Call>, k: NodePubKey)
    requires forall i :: 0 <= i < |calls| ==> calls[i].nodePubKey != k
    ensures Get(Run(reg, calls), k) == Get(reg, k)
    decreases |calls|
  {
    if |calls| > 0 {
      RunLeavesUnnamedKeys(Dispatch(reg, calls[0]).state, calls[1..], k);
    }
  }

  /**
    Through the pallet's own calls no node ever becomes assigned, so from an
    empty registry every registered node can be removed by its provider:
    only an outside `Update` can make `NodeIsAssignedToCluster` reachable.
   */
  lemma ProviderCanRemoveAfterRun(calls: seq<Call>, k: NodePubKey)
    requires Contains(Run(Empty, calls), k)
    ensures RemoveNode(Run(Empty, calls), GetProviderId(Get(Run(Empty, calls), k).value), k).result.Ok?
  {
  }
}
