/**
  The CDN node kind: its accessors, its setters for params, props and
  cluster assignment, and its checked constructor. Setters model `&mut self`
  methods as functions returning a `Step`: the call's result together with
  the node as it stands afterwards.
 */
module CdnNodeImpl {
  import opened Wrappers
  import opened Primitives
  import opened NodeTypes

  function GetPubKey(node: CDNNode): NodePubKeyRef
  {
    CDNPubKeyRef(node.pubKey)
  }

  function GetProviderId(node: CDNNode): AccountId
  {
    node.providerId
  }

  function GetProps(node: CDNNode): NodePropsRef
  {
    CDNPropsRef(node.props)
  }

  function GetClusterId(node: CDNNode): Option<ClusterId>
  {
    node.clusterId
  }

  function GetType(node: CDNNode): NodeType
  {
    NodeType.CDN
  }

  function SetClusterId(node: CDNNode, clusterId: Option<ClusterId>): CDNNode
  {
    node.(clusterId := clusterId)
  }

  /**
    Replaces the whole props record. Only CDN props are accepted; any other
    kind is refused and the node stays as it was.
   */
  function SetProps(node: CDNNode, props: NodeProps): (r: Step<CDNNode, NodeError>)
    ensures r.result.Ok? <==> props.CDNProps?
    ensures r.result.Ok? ==> GetProps(r.state) == CDNPropsRef(props.cdnProps)
    ensures r.result.Ok? ==>
      && GetPubKey(r.state) == GetPubKey(node)
      && GetProviderId(r.state) == GetProviderId(node)
      && GetClusterId(r.state) == GetClusterId(node)
    ensures r.result.Err? ==> r.result.error == InvalidCDNNodeProps && r.state == node
  {
    match props
    case CDNProps(p) => Done(node.(props := p))
    case _ => Fail(node, InvalidCDNNodeProps)
  }

  /**
    Replaces the params bytes held in the props. CDN params are accepted when
    they fit in `MAX_CDN_NODE_PARAMS_LEN` bytes; other kinds are refused
    before their length is looked at. On error the node is unchanged.
   */
  function SetParams(node: CDNNode, nodeParams: NodeParams): (r: Step<CDNNode, NodeError>)
    ensures r.result.Ok? <==>
      nodeParams.CDNParams? && |nodeParams.cdnParams.params| <= MAX_CDN_NODE_PARAMS_LEN
    ensures !nodeParams.CDNParams? ==> r.result == Err(InvalidCDNNodeParams)
    ensures nodeParams.CDNParams? && |nodeParams.cdnParams.params| > MAX_CDN_NODE_PARAMS_LEN ==>
      r.result == Err(CDNNodeParamsExceedsLimit)
    ensures r.result.Ok? ==>
      && r.state.props.params == nodeParams.cdnParams.params
      && GetPubKey(r.state) == GetPubKey(node)
      && GetProviderId(r.state) == GetProviderId(node)
      && GetClusterId(r.state) == GetClusterId(node)
    ensures r.result.Err? ==> r.state == node
  {
    match nodeParams
    case CDNParams(cdnParams) =>
      (match TryIntoBounded(cdnParams.params, MAX_CDN_NODE_PARAMS_LEN)
       case Some(buf) => Done(node.(props := node.props.(params := buf)))
       case None => Fail(node, CDNNodeParamsExceedsLimit))
    case _ => Fail(node, InvalidCDNNodeParams)
  }

  /**
    Builds a fresh, unassigned CDN node. The key is checked first, then the
    kind of the params, then their length.
   */
  function New(nodePubKey: NodePubKey, providerId: AccountId, nodeParams: NodeParams)
    : (r: Result<Node, NodeError>)
    ensures !nodePubKey.CDNPubKey? ==> r == Err(InvalidCDNNodePubKey)
    ensures nodePubKey.CDNPubKey? && !nodeParams.CDNParams? ==> r == Err(InvalidCDNNodeParams)
    ensures nodePubKey.CDNPubKey? && nodeParams.CDNParams?
            && |nodeParams.cdnParams.params| > MAX_CDN_NODE_PARAMS_LEN ==>
      r == Err(CDNNodeParamsExceedsLimit)
    ensures r.Ok? <==>
      && nodePubKey.CDNPubKey?
      && nodeParams.CDNParams?
      && |nodeParams.cdnParams.params| <= MAX_CDN_NODE_PARAMS_LEN
    ensures r.Ok? ==>
      && r.value.CDN?
      && r.value.cdn.pubKey == nodePubKey.cdnKey
      && r.value.cdn.providerId == providerId
      && r.value.cdn.clusterId == None
      && r.value.cdn.props.params == nodeParams.cdnParams.params
  {
    match nodePubKey
    case CDNPubKey(pubKey) =>
      (match nodeParams
       case CDNParams(cdnParams) =>
         (match TryIntoBounded(cdnParams.params, MAX_CDN_NODE_PARAMS_LEN)
          case Some(buf) => Ok(Node.CDN(CDNNode(pubKey, providerId, None, CDNNodeProps(buf))))
          case None => Err(CDNNodeParamsExceedsLimit))
       case _ => Err(InvalidCDNNodeParams))
    case _ => Err(InvalidCDNNodePubKey)
  }

  /** The props bound is inclusive: 2048 bytes fit, 2049 do not. */
  lemma NewBoundary(pubKey: CDNNodePubKey, providerId: AccountId, bytes: seq<Byte>)
    ensures |bytes| == 2048 ==>
      New(CDNPubKey(pubKey), providerId, CDNParams(CDNNodeParams(bytes))).Ok?
    ensures |bytes| >= 2049 ==>
      New(CDNPubKey(pubKey), providerId, CDNParams(CDNNodeParams(bytes)))
        == Err(CDNNodeParamsExceedsLimit)
  {
  }

  /**
    Setting the cluster assignment is observed by `GetClusterId` and leaves
    every other accessor as it was; the kind is always CDN.
   */
  lemma SetClusterIdThenGet(node: CDNNode, clusterId: Option<ClusterId>)
    ensures GetClusterId(SetClusterId(node, clusterId)) == clusterId
    ensures GetPubKey(SetClusterId(node, clusterId)) == GetPubKey(node)
    ensures GetProviderId(SetClusterId(node, clusterId)) == GetProviderId(node)
    ensures GetProps(SetClusterId(node, clusterId)) == GetProps(node)
    ensures GetType(SetClusterId(node, clusterId)) == GetType(node) == NodeType.CDN
  {
  }
}
