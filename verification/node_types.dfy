/**
  The data model of the DDC node registry: the two node kinds (Storage and
  CDN), their records, props and construction parameters, and the closed
  tagged unions over them (`Node`, `NodePubKey`, `NodeParams`, `NodeProps`,
  `NodeType`), together with the error enums of the pallet.

  The Storage kind mirrors the CDN kind field for field; only its props
  bound differs, and that bound is left as an unspecified constant.
 */
module NodeTypes {
  import opened Wrappers
  import opened Primitives

  /** `MaxCDNNodeParamsLen`: the most bytes a CDN node's props may hold. */
  const MAX_CDN_NODE_PARAMS_LEN: nat := 2048

  /** The most bytes a Storage node's props may hold; its value is not fixed here. */
  const MAX_STORAGE_NODE_PARAMS_LEN: nat

  type CDNNodePubKey = Key32
  type StorageNodePubKey = Key32

  /** The byte buffer of CDN props: a `BoundedVec<u8, MaxCDNNodeParamsLen>`. */
  type CDNParamsBuf = s: seq<Byte> | |s| <= MAX_CDN_NODE_PARAMS_LEN

  /** The byte buffer of Storage props, bounded by the Storage limit. */
  type StorageParamsBuf = s: seq<Byte> | |s| <= MAX_STORAGE_NODE_PARAMS_LEN

  /** Stored, bounded operational parameters of a node (a stringified JSON blob). */
  datatype CDNNodeProps = CDNNodeProps(params: CDNParamsBuf)
  datatype StorageNodeProps = StorageNodeProps(params: StorageParamsBuf)

  /** Caller-supplied parameters, unbounded until they are written into props. */
  datatype CDNNodeParams = CDNNodeParams(params: seq<Byte>)
  datatype StorageNodeParams = StorageNodeParams(params: seq<Byte>)

  datatype CDNNode = CDNNode(
    pubKey: CDNNodePubKey,
    providerId: AccountId,
    clusterId: Option<ClusterId>,
    props: CDNNodeProps)

  datatype StorageNode = StorageNode(
    pubKey: StorageNodePubKey,
    providerId: AccountId,
    clusterId: Option<ClusterId>,
    props: StorageNodeProps)

  datatype Node = Storage(storage: StorageNode) | CDN(cdn: CDNNode)

  datatype NodeParams =
    | StorageParams(storageParams: StorageNodeParams)
    | CDNParams(cdnParams: CDNNodeParams)

  datatype NodeProps =
    | StorageProps(storageProps: StorageNodeProps)
    | CDNProps(cdnProps: CDNNodeProps)

  datatype NodePubKey =
    | StoragePubKey(storageKey: StorageNodePubKey)
    | CDNPubKey(cdnKey: CDNNodePubKey)

  /** A borrowed view of a node's public key, as `get_pub_key` hands it out. */
  datatype NodePubKeyRef =
    | StoragePubKeyRef(storageKeyRef: StorageNodePubKey)
    | CDNPubKeyRef(cdnKeyRef: CDNNodePubKey)

  /** A borrowed view of a node's props, as `get_props` hands it out. */
  datatype NodePropsRef =
    | StoragePropsRef(storagePropsRef: StorageNodeProps)
    | CDNPropsRef(cdnPropsRef: CDNNodeProps)

  /** The kind of a node; its `u8` encoding is 1 for Storage and 2 for CDN. */
  datatype NodeType = Storage | CDN

  /** Errors raised by node construction and the node setters. */
  datatype NodeError =
    | InvalidStorageNodePubKey
    | InvalidCDNNodePubKey
    | InvalidStorageNodeParams
    | InvalidCDNNodeParams
    | StorageNodeParamsExceedsLimit
    | CDNNodeParamsExceedsLimit
    | InvalidStorageNodeProps
    | InvalidCDNNodeProps

  /** Errors raised by the node repository. */
  datatype NodeRepositoryError =
    | StorageNodeAlreadyExists
    | CDNNodeAlreadyExists
    | StorageNodeDoesNotExist
    | CDNNodeDoesNotExist

  /** Errors the pallet's calls report to their caller. */
  datatype Error =
    | NodeAlreadyExists
    | NodeDoesNotExist
    | InvalidNodeParams
    | NodeParamsExceedsLimit
    | OnlyNodeProvider
    | NodeIsAssignedToCluster

  /** The kind a public key belongs to. */
  function KeyType(k: NodePubKey): NodeType
  {
    match k
    case StoragePubKey(_) => NodeType.Storage
    case CDNPubKey(_) => NodeType.CDN
  }

  /** The kind a parameter payload is meant for. */
  function ParamsType(p: NodeParams): NodeType
  {
    match p
    case StorageParams(_) => NodeType.Storage
    case CDNParams(_) => NodeType.CDN
  }

  /** The raw bytes of a parameter payload, whatever its kind. */
  function ParamsBytes(p: NodeParams): seq<Byte>
  {
    match p
    case StorageParams(sp) => sp.params
    case CDNParams(cp) => cp.params
  }

  /** The props bound of a node kind. */
  function MaxParamsLen(t: NodeType): nat
  {
    match t
    case Storage => MAX_STORAGE_NODE_PARAMS_LEN
    case CDN => MAX_CDN_NODE_PARAMS_LEN
  }

  /** The kind a props record belongs to. */
  function PropsType(p: NodeProps): NodeType
  {
    match p
    case StorageProps(_) => NodeType.Storage
    case CDNProps(_) => NodeType.CDN
  }

  /** The kind of a borrowed props view. */
  function PropsRefType(p: NodePropsRef): NodeType
  {
    match p
    case StoragePropsRef(_) => NodeType.Storage
    case CDNPropsRef(_) => NodeType.CDN
  }

  /** The params bytes a borrowed props view holds. */
  function PropsRefBytes(p: NodePropsRef): seq<Byte>
  {
    match p
    case StoragePropsRef(sp) => sp.params
    case CDNPropsRef(cp) => cp.params
  }

  /** The 32 key bytes of a public key, whatever its kind. */
  function KeyBytes(k: NodePubKey): Key32
  {
    match k
    case StoragePubKey(b) => b
    case CDNPubKey(b) => b
  }

  /** The kind of a borrowed key view. */
  function KeyRefType(k: NodePubKeyRef): NodeType
  {
    match k
    case StoragePubKeyRef(_) => NodeType.Storage
    case CDNPubKeyRef(_) => NodeType.CDN
  }

  /** The 32 key bytes a borrowed key view points at. */
  function KeyRefBytes(k: NodePubKeyRef): Key32
  {
    match k
    case StoragePubKeyRef(b) => b
    case CDNPubKeyRef(b) => b
  }
}
