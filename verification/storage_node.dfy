/**
  The Storage node kind: its accessors, its setters for params, props and
  cluster assignment, and its checked constructor. Setters model `&mut self`
  methods as functions returning a `Step`: the call's result together with
  the node as it stands afterwards.
 */
module StorageNodeImpl {
  import opened Wrappers
  import opened Primitives
  import opened NodeTypes

  function GetPubKey(node: StorageNode): NodePubKeyRef
  {
    StoragePubKeyRef(node.pubKey)
  }

  function GetProviderId(node: StorageNode): AccountId
  {
    node.providerId
  }

  function GetProps(node: StorageNode): NodePropsRef
  {
    StoragePropsRef(node.props)
  }

  function GetClusterId(node: StorageNode): Option<ClusterId>
  {
    node.clusterId
  }

  function GetType(node: StorageNode): NodeType
  {
    NodeType.Storage
  }

  function SetClusterId(node: StorageNode, clusterId: Option<ClusterId>): StorageNode
  {
    node.(clusterId := clusterId)
  }

  /**
    Replaces the whole props record. Only Storage props are accepted; any other
    kind is refused and the node stays as it was.
   */
  function SetProps(node: StorageNode, props: NodeProps): (r: Step<StorageNode, NodeError>)
    ensures r.result.Ok? <==> props.StorageProps?
    ensures r.result.Ok? ==> GetProps(r.state) == StoragePropsRef(props.storageProps)
    ensures r.result.Ok? ==>
      && GetPubKey(r.state) == GetPubKey(node)
      && GetProviderId(r.state) == GetProviderId(node)
      && GetClusterId(r.state) == GetClusterId(node)
    ensures r.result.Err? ==> r.result.error == InvalidStorageNodeProps && r.state == node
  {
    match props
    case StorageProps(p) => Done(node.(props := p))
    case _ => Fail(node, InvalidStorageNodeProps)
  }

  /**
    Replaces the params bytes held in the props. Storage params are accepted when
    they fit in `MAX_STORAGE_NODE_PARAMS_LEN` bytes; other kinds are refused
    before their length is looked at. On error the node is unchanged.
   */
  function SetParams(node: StorageNode, nodeParams: NodeParams): (r: Step<StorageNode, NodeError>)
    ensures r.result.Ok? <==>
      nodeParams.StorageParams? && |nodeParams.storageParams.params| <= MAX_STORAGE_NODE_PARAMS_LEN
    ensures !nodeParams.StorageParams? ==> r.result == Err(InvalidStorageNodeParams)
    ensures nodeParams.StorageParams? && |nodeParams.storageParams.params| > MAX_STORAGE_NODE_PARAMS_LEN ==>
      r.result == Err(StorageNodeParamsExceedsLimit)
    ensures r.result.Ok? ==>
      && r.state.props.params == nodeParams.storageParams.params
      && GetPubKey(r.state) == GetPubKey(node)
      && GetProviderId(r.state) == GetProviderId(node)
      && GetClusterId(r.state) == GetClusterId(node)
    ensures r.result.Err? ==> r.state == node
  {
    match nodeParams
    case StorageParams(storageParams) =>
      (match TryIntoBounded(storageParams.params, MAX_STORAGE_NODE_PARAMS_LEN)
       case Some(buf) => Done(node.(props := node.props.(params := buf)))
       case None => Fail(node, StorageNodeParamsExceedsLimit))
    case _ => Fail(node, InvalidStorageNodeParams)
  }

  /**
    Builds a fresh, unassigned Storage node. The key is checked first, then the
    kind of the params, then their length.
   */
  function New(nodePubKey: NodePubKey, providerId: AccountId, nodeParams: NodeParams)
    : (r: Result<Node, NodeError>)
    ensures !nodePubKey.StoragePubKey? ==> r == Err(InvalidStorageNodePubKey)
    ensures nodePubKey.StoragePubKey? && !nodeParams.StorageParams? ==> r == Err(InvalidStorageNodeParams)
    ensures nodePubKey.StoragePubKey? && nodeParams.StorageParams?
            && |nodeParams.storageParams.params| > MAX_STORAGE_NODE_PARAMS_LEN ==>
      r == Err(StorageNodeParamsExceedsLimit)
    ensures r.Ok? <==>
      && nodePubKey.StoragePubKey?
      && nodeParams.StorageParams?
      && |nodeParams.storageParams.params| <= MAX_STORAGE_NODE_PARAMS_LEN
    ensures r.Ok? ==>
      && r.value.Storage?
      && r.value.storage.pubKey == nodePubKey.storageKey
      && r.value.storage.providerId == providerId
      && r.value.storage.clusterId == None
      && r.value.storage.props.params == nodeParams.storageParams.params
  {
    match nodePubKey
    case StoragePubKey(pubKey) =>
      (match nodeParams
       case StorageParams(storageParams) =>
         (match TryIntoBounded(storageParams.params, MAX_STORAGE_NODE_PARAMS_LEN)
          case Some(buf) => Ok(Node.Storage(StorageNode(pubKey, providerId, None, StorageNodeProps(buf))))
          case None => Err(StorageNodeParamsExceedsLimit))
       case _ => Err(InvalidStorageNodeParams))
    case _ => Err(InvalidStorageNodePubKey)
  }

  /** The props bound is inclusive: a buffer of exactly the bound fits, one byte more does not. */
  lemma NewBoundary(pubKey: StorageNodePubKey, providerId: AccountId, bytes: seq<Byte>)
    ensures |bytes| == MAX_STORAGE_NODE_PARAMS_LEN ==>
      New(StoragePubKey(pubKey), providerId, StorageParams(StorageNodeParams(bytes))).Ok?
    ensures |bytes| >= MAX_STORAGE_NODE_PARAMS_LEN + 1 ==>
      New(StoragePubKey(pubKey), providerId, StorageParams(StorageNodeParams(bytes)))
        == Err(StorageNodeParamsExceedsLimit)
  {
  }

  /**
    Setting the cluster assignment is observed by `GetClusterId` and leaves
    every other accessor as it was; the kind is always Storage.
   */
  lemma SetClusterIdThenGet(node: StorageNode, clusterId: Option<ClusterId>)
    ensures GetClusterId(SetClusterId(node, clusterId)) == clusterId
    ensures GetPubKey(SetClusterId(node, clusterId)) == GetPubKey(node)
    ensures GetProviderId(SetClusterId(node, clusterId)) == GetProviderId(node)
    ensures GetProps(SetClusterId(node, clusterId)) == GetProps(node)
    ensures GetType(SetClusterId(node, clusterId)) == GetType(node) == NodeType.Storage
  {
  }
}
