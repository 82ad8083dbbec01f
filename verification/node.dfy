/**
  The polymorphic node: every capability of a `Node` is dispatched to the
  kind it wraps, so callers never branch on the kind themselves. Also the
  `NodeType <-> u8` codec, `NodePubKeyRef::to_owned`, and the translation of
  node errors into pallet errors.
 */
module Nodes {
  import opened Wrappers
  import opened Primitives
  import opened NodeTypes
  import CdnNodeImpl
  import StorageNodeImpl

  /** `NodePubKeyRef::to_owned`: an owned copy of a borrowed key, of the same kind. */
  function ToOwned(keyRef: NodePubKeyRef): (k: NodePubKey)
    ensures KeyType(k) == KeyRefType(keyRef)
    ensures KeyBytes(k) == KeyRefBytes(keyRef)
  {
    match keyRef
    case StoragePubKeyRef(b) => StoragePubKey(b)
    case CDNPubKeyRef(b) => CDNPubKey(b)
  }

  /** Two borrowed keys with the same owned copy are the same key. */
  lemma ToOwnedInjective(a: NodePubKeyRef, b: NodePubKeyRef)
    ensures ToOwned(a) == ToOwned(b) ==> a == b
  {
  }

  function GetPubKey(node: Node): NodePubKeyRef
  {
    match node
    case Storage(n) => StorageNodeImpl.GetPubKey(n)
    case CDN(n) => CdnNodeImpl.GetPubKey(n)
  }

  function GetProviderId(node: Node): AccountId
  {
    match node
    case Storage(n) => StorageNodeImpl.GetProviderId(n)
    case CDN(n) => CdnNodeImpl.GetProviderId(n)
  }

  function GetProps(node: Node): NodePropsRef
  {
    match node
    case Storage(n) => StorageNodeImpl.GetProps(n)
    case CDN(n) => CdnNodeImpl.GetProps(n)
  }

  function GetClusterId(node: Node): Option<ClusterId>
  {
    match node
    case Storage(n) => StorageNodeImpl.GetClusterId(n)
    case CDN(n) => CdnNodeImpl.GetClusterId(n)
  }

  function GetType(node: Node): NodeType
  {
    match node
    case Storage(n) => StorageNodeImpl.GetType(n)
    case CDN(n) => CdnNodeImpl.GetType(n)
  }

  /** The owned public key of a node, `node.get_pub_key().to_owned()`. */
  function KeyOf(node: Node): NodePubKey
  {
    ToOwned(GetPubKey(node))
  }

  /**
    Each accessor returns the field of the wrapped kind, and the borrowed key
    and props carry the same tag as the node itself.
   */
  lemma AccessorsFollowVariant(node: Node)
    ensures KeyRefType(GetPubKey(node)) == GetType(node)
    ensures PropsRefType(GetProps(node)) == GetType(node)
    ensures KeyType(KeyOf(node)) == GetType(node)
    ensures node.Storage? <==> GetType(node) == NodeType.Storage
    ensures node.Storage? ==>
      && KeyRefBytes(GetPubKey(node)) == node.storage.pubKey
      && GetProviderId(node) == node.storage.providerId
      && GetProps(node) == StoragePropsRef(node.storage.props)
      && GetClusterId(node) == node.storage.clusterId
    ensures node.CDN? ==>
      && KeyRefBytes(GetPubKey(node)) == node.cdn.pubKey
      && GetProviderId(node) == node.cdn.providerId
      && GetProps(node) == CDNPropsRef(node.cdn.props)
      && GetClusterId(node) == node.cdn.clusterId
  {
  }

  /** Every node, however built or mutated, holds props within its kind's bound. */
  lemma PropsWithinBound(node: Node)
    ensures |PropsRefBytes(GetProps(node))| <= MaxParamsLen(GetType(node))
  {
  }

  function SetClusterId(node: Node, clusterId: Option<ClusterId>): Node
  {
    match node
    case Storage(n) => Node.Storage(StorageNodeImpl.SetClusterId(n, clusterId))
    case CDN(n) => Node.CDN(CdnNodeImpl.SetClusterId(n, clusterId))
  }

  /** Setting the cluster assignment is observed by `GetClusterId` and nothing else moves. */
  lemma SetClusterIdThenGet(node: Node, clusterId: Option<ClusterId>)
    ensures GetClusterId(SetClusterId(node, clusterId)) == clusterId
    ensures KeyOf(SetClusterId(node, clusterId)) == KeyOf(node)
    ensures GetProviderId(SetClusterId(node, clusterId)) == GetProviderId(node)
    ensures GetProps(SetClusterId(node, clusterId)) == GetProps(node)
    ensures GetType(SetClusterId(node, clusterId)) == GetType(node)
  {
  }

  /** Replaces a node's props; only props of the node's own kind are accepted. */
  function SetProps(node: Node, props: NodeProps): (r: Step<Node, NodeError>)
    ensures r.result.Ok? <==> PropsType(props) == GetType(node)
    ensures r.result.Ok? ==>
      && GetProps(r.state) == (match props
                              case StorageProps(p) => StoragePropsRef(p)
                              case CDNProps(p) => CDNPropsRef(p))
      && KeyOf(r.state) == KeyOf(node)
      && GetProviderId(r.state) == GetProviderId(node)
      && GetClusterId(r.state) == GetClusterId(node)
    ensures r.result.Err? ==> r.state == node
    ensures r.result.Err? ==> NodeErrorToError(r.result.error) == InvalidNodeParams
  {
    match node
    case Storage(n) =>
      var s := StorageNodeImpl.SetProps(n, props);
      Step(s.result, Node.Storage(s.state))
    case CDN(n) =>
      var s := CdnNodeImpl.SetProps(n, props);
      Step(s.result, Node.CDN(s.state))
  }

  /**
    Replaces the params bytes of a node's props; they must be of the node's
    own kind and within that kind's bound.
   */
  function SetParams(node: Node, nodeParams: NodeParams): (r: Step<Node, NodeError>)
    ensures r.result.Ok? <==>
      && ParamsType(nodeParams) == GetType(node)
      && |ParamsBytes(nodeParams)| <= MaxParamsLen(GetType(node))
    ensures r.result.Ok? ==>
      && PropsRefBytes(GetProps(r.state)) == ParamsBytes(nodeParams)
      && KeyOf(r.state) == KeyOf(node)
      && GetProviderId(r.state) == GetProviderId(node)
      && GetClusterId(r.state) == GetClusterId(node)
    ensures r.result.Err? ==> r.state == node
    ensures r.result.Err? ==>
      NodeErrorToError(r.result.error)
        == (if ParamsType(nodeParams) != GetType(node) then InvalidNodeParams
            else NodeParamsExceedsLimit)
  {
    match node
    case Storage(n) =>
      var s := StorageNodeImpl.SetParams(n, nodeParams);
      Step(s.result, Node.Storage(s.state))
    case CDN(n) =>
      var s := CdnNodeImpl.SetParams(n, nodeParams);
      Step(s.result, Node.CDN(s.state))
  }

  /**
    Builds a node from a key, a provider and params. The kind is chosen by
    the params; that kind's constructor then checks the key, the params and
    the bound. A node is built exactly when key and params agree on the kind
    and the bytes fit; it is unassigned and holds exactly the given bytes.
   */
  function New(nodePubKey: NodePubKey, providerId: AccountId, nodeParams: NodeParams)
    : (r: Result<Node, NodeError>)
    ensures r.Ok? <==>
      && KeyType(nodePubKey) == ParamsType(nodeParams)
      && |ParamsBytes(nodeParams)| <= MaxParamsLen(ParamsType(nodeParams))
    ensures r.Ok? ==>
      && KeyOf(r.value) == nodePubKey
      && GetType(r.value) == ParamsType(nodeParams)
      && GetProviderId(r.value) == providerId
      && GetClusterId(r.value) == None
      && PropsRefBytes(GetProps(r.value)) == ParamsBytes(nodeParams)
    ensures r.Err? ==>
      NodeErrorToError(r.error)
        == (if KeyType(nodePubKey) != ParamsType(nodeParams) then InvalidNodeParams
            else NodeParamsExceedsLimit)
  {
    match nodeParams
    case StorageParams(_) => StorageNodeImpl.New(nodePubKey, providerId, nodeParams)
    case CDNParams(_) => CdnNodeImpl.New(nodePubKey, providerId, nodeParams)
  }

  /** `u8::from(NodeType)`. */
  function NodeTypeToU8(t: NodeType): Byte
  {
    match t
    case Storage => 1
    case CDN => 2
  }

  /** `NodeType::try_from(u8)`: accepts exactly the two codes and inverts `NodeTypeToU8`. */
  function NodeTypeTryFromU8(v: Byte): (r: Result<NodeType, ()>)
    ensures r.Ok? <==> v == 1 || v == 2
    ensures r.Ok? ==> NodeTypeToU8(r.value) == v
  {
    match v
    case 1 => Ok(NodeType.Storage)
    case 2 => Ok(NodeType.CDN)
    case _ => Err(())
  }

  /** Storage encodes as 1, CDN as 2, and decoding an encoding gives back the kind. */
  lemma NodeTypeRoundTrip(t: NodeType)
    ensures NodeTypeToU8(NodeType.Storage) == 1 && NodeTypeToU8(NodeType.CDN) == 2
    ensures NodeTypeTryFromU8(NodeTypeToU8(t)) == Ok(t)
  {
  }

  /** Distinct kinds have distinct codes. */
  lemma NodeTypeToU8Injective(a: NodeType, b: NodeType)
    ensures NodeTypeToU8(a) == NodeTypeToU8(b) ==> a == b
  {
  }

  /**
    `From<NodeError> for Error`: every mismatch of kind (key, params or props)
    is reported as `InvalidNodeParams`, every over-long buffer as
    `NodeParamsExceedsLimit`.
   */
  function NodeErrorToError(e: NodeError): (r: Error)
    ensures r == InvalidNodeParams <==>
      e in {InvalidStorageNodeParams, InvalidCDNNodeParams,
            InvalidStorageNodePubKey, InvalidCDNNodePubKey,
            InvalidStorageNodeProps, InvalidCDNNodeProps}
    ensures r == NodeParamsExceedsLimit <==>
      e in {StorageNodeParamsExceedsLimit, CDNNodeParamsExceedsLimit}
  {
    match e
    case InvalidStorageNodeParams => InvalidNodeParams
    case InvalidCDNNodeParams => InvalidNodeParams
    case InvalidStorageNodePubKey => InvalidNodeParams
    case InvalidCDNNodePubKey => InvalidNodeParams
    case InvalidStorageNodeProps => InvalidNodeParams
    case InvalidCDNNodeProps => InvalidNodeParams
    case StorageNodeParamsExceedsLimit => NodeParamsExceedsLimit
    case CDNNodeParamsExceedsLimit => NodeParamsExceedsLimit
  }
}
