# DDC node registry — a Dafny model

This project models the node registry of the `ddc-nodes` pallet. The pallet
records the infrastructure nodes that providers operate for DDC clusters.

- **Node model.** A node is a closed tagged union of two kinds, Storage and
  CDN. Each kind holds a 32-byte public key, the provider's account, an
  optional cluster assignment (a 20-byte cluster id) and props. The props are
  a byte buffer bounded per kind: 2048 bytes for CDN. Every capability of a
  `Node` (key, provider, props, cluster id, kind, and the setters) is
  dispatched to the kind it wraps. `NodeType` has a `u8` codec (Storage = 1,
  CDN = 2).
- **Repository.** Pallet storage is two independent maps, one per kind, keyed
  by public key. `Create`, `Get` and `Update` check existence and report
  kind-specific errors; `Remove` deletes without checking and always succeeds.
- **Pallet calls.** `create_node` builds a node owned by the caller and
  registers it. `remove_node` checks, in this order, that the node exists,
  that the caller is its provider, and that it is not assigned to a cluster.

Everything is a pure function. A call that mutates `&mut self` or pallet
storage returns a `Step`: its result paired with the state it leaves behind.
That makes "nothing changes on error" a provable postcondition. Bounded
buffers (`BoundedVec`) are subset types, so every props record the model
builds is checked against its bound where it is built. `Run` applies a
sequence of pallet calls one after another. This is how the runtime applies
extrinsics, each committing all of its effect or none of it.

Files and modules:

| file | module | contents |
|---|---|---|
| wrappers.dfy | `Wrappers` | `Option`, `Result`, `Step` |
| primitives.dfy | `Primitives` | bytes, keys, cluster and account ids, bounded conversion |
| node_types.dfy | `NodeTypes` | every record, union and error enum; the props bounds |
| cdn_node.dfy | `CdnNodeImpl` | CDN accessors, setters and constructor |
| storage_node.dfy | `StorageNodeImpl` | the Storage counterpart |
| node.dfy | `Nodes` | dispatch over `Node`, `to_owned`, `NodeType` codec, `NodeError` mapping |
| pallet.dfy | `DdcNodes` | the repository, `create_node`, `remove_node`, call sequences |

Where the source files disagree with each other, the model chooses as follows:

- `create_node` takes the caller, the public key and the params. The call at
  `pallets/ddc-nodes/src/lib.rs:82` passes only a provider and params. The
  CDN constructor it reaches (`cdn_node.rs:70-74`) takes the key as well.
- `Nodes.New` chooses the node kind from the params variant, as `from_params`
  does (`node.rs:87-95`). The chosen kind's constructor then checks the key,
  the params kind and the length, in that order (`cdn_node.rs:75-90`).
- `NodeError` has all eight variants that the constructors and setters raise.
  `node.rs:124-127` declares only two of them, and `node.rs:129-136` maps only
  those two to `InvalidNodeParams`. In the model, both `*ParamsExceedsLimit`
  variants map to the pallet's `NodeParamsExceedsLimit`. The key and props
  mismatch variants map to `InvalidNodeParams`.
- The Storage kind mirrors the CDN kind field for field and rule for rule.
  Its props bound `MAX_STORAGE_NODE_PARAMS_LEN` is a constant whose value is
  left unspecified. `storage_node.rs` is not part of this model.
- An assigned node cannot be removed by anyone. Because the provider check
  comes first, a caller who is not the provider gets `OnlyNodeProvider`, not
  `NodeIsAssignedToCluster` (`AssignedNodeIsNeverRemoved`).

## Model

| member | source | states |
|---|---|---|
| `Primitives.TryIntoBounded` | pallets/ddc-nodes/src/cdn_node.rs:82-85 | converting to the bounded buffer succeeds exactly when the input fits, and keeps every byte |
| `CdnNodeImpl.New` | pallets/ddc-nodes/src/cdn_node.rs:70-92 | a non-CDN key gives `InvalidCDNNodePubKey` whatever the params. Otherwise non-CDN params give `InvalidCDNNodeParams`, and over 2048 bytes gives `CDNNodeParamsExceedsLimit`. On success: a `Node::CDN` with the given key and provider, no cluster, and exactly the input bytes |
| `CdnNodeImpl.NewBoundary` | pallets/ddc-nodes/src/cdn_node.rs:9-11 | exactly 2048 bytes is accepted; 2049 or more gives `CDNNodeParamsExceedsLimit` |
| `CdnNodeImpl.SetParams` | pallets/ddc-nodes/src/cdn_node.rs:51-60 | CDN params within the bound replace only the props bytes. Over-long ones give `CDNNodeParamsExceedsLimit`, and params of another kind give `InvalidCDNNodeParams`. On error the node is unchanged |
| `CdnNodeImpl.SetProps` | pallets/ddc-nodes/src/cdn_node.rs:44-50 | only CDN props are accepted, and they become the node's props with key, provider and cluster unchanged. Any other kind gives `InvalidCDNNodeProps`, with the node unchanged |
| `CdnNodeImpl.SetClusterIdThenGet` | pallets/ddc-nodes/src/cdn_node.rs:61-69 | after `set_cluster_id(c)`, `get_cluster_id` returns `c`. Key, provider and props are unchanged, and the kind is always CDN |
| `StorageNodeImpl.New` | pallets/ddc-nodes/src/cdn_node.rs:70-92 | Storage counterpart of the CDN constructor, against the Storage bound |
| `StorageNodeImpl.NewBoundary` | pallets/ddc-nodes/src/cdn_node.rs:9-11 | Storage counterpart: a buffer of exactly the Storage bound is accepted, one byte more is refused |
| `StorageNodeImpl.SetParams` | pallets/ddc-nodes/src/cdn_node.rs:51-60 | Storage counterpart of `set_params` |
| `StorageNodeImpl.SetProps` | pallets/ddc-nodes/src/cdn_node.rs:44-50 | Storage counterpart of `set_props` |
| `StorageNodeImpl.SetClusterIdThenGet` | pallets/ddc-nodes/src/cdn_node.rs:61-69 | Storage counterpart of the cluster-id setter and getter; the kind is always Storage |
| `Nodes.ToOwned` | pallets/ddc-nodes/src/node.rs:34-43 | the owned key has the same kind and the same 32 bytes as the borrowed one |
| `Nodes.ToOwnedInjective` | pallets/ddc-nodes/src/node.rs:34-43 | distinct borrowed keys give distinct owned keys |
| `Nodes.AccessorsFollowVariant` | pallets/ddc-nodes/src/node.rs:62-86 | each accessor returns the wrapped kind's field. The borrowed key, the props view and the owned key all carry the node's own kind |
| `Nodes.PropsWithinBound` | pallets/ddc-nodes/src/cdn_node.rs:22-27 | every node holds props no longer than its kind's bound, 2048 bytes for CDN, because the props buffer is a bounded vector |
| `Nodes.New` | pallets/ddc-nodes/src/node.rs:87-95 | a node is built exactly when key and params are of one kind and the bytes fit that kind's bound. It has the given key, provider and bytes and no cluster. A kind mismatch surfaces as `InvalidNodeParams`, an over-long buffer as `NodeParamsExceedsLimit` |
| `Nodes.SetParams` | pallets/ddc-nodes/src/cdn_node.rs:51-60 | through the `Node` union: accepted exactly for params of the node's kind within its bound, replacing only the props bytes. Otherwise the node is unchanged and the error maps to `InvalidNodeParams` or `NodeParamsExceedsLimit` |
| `Nodes.SetProps` | pallets/ddc-nodes/src/cdn_node.rs:44-50 | through the `Node` union: accepted exactly for props of the node's kind. Otherwise the node is unchanged |
| `Nodes.SetClusterIdThenGet` | pallets/ddc-nodes/src/cdn_node.rs:61-66 | through the `Node` union: the cluster id set is the one read back, and key, provider, props and kind are unchanged |
| `Nodes.NodeTypeTryFromU8` | pallets/ddc-nodes/src/node.rs:113-122 | decoding succeeds exactly for 1 and 2, and every value it accepts is the encoding of the kind it returns |
| `Nodes.NodeTypeRoundTrip` | pallets/ddc-nodes/src/node.rs:104-122 | Storage encodes as 1 and CDN as 2, and decoding an encoding gives back the kind |
| `Nodes.NodeTypeToU8Injective` | pallets/ddc-nodes/src/node.rs:104-111 | distinct kinds have distinct `u8` codes |
| `Nodes.NodeErrorToError` | pallets/ddc-nodes/src/node.rs:129-136 | both `Invalid*NodeParams` errors, and the key and props mismatches, become `InvalidNodeParams`. Both over-long errors become `NodeParamsExceedsLimit` |
| `DdcNodes.Get` | pallets/ddc-nodes/src/lib.rs:156-167 | succeeds exactly when the key is in its kind's map. It returns a node of the key's kind, stored under that key. An absent key gives that kind's `*DoesNotExist` |
| `DdcNodes.Create` | pallets/ddc-nodes/src/lib.rs:137-154 | fails with the kind's `*AlreadyExists`, leaving state unchanged, exactly when the key is taken. Otherwise `Get` of the key returns the node and every other key reads as before. The other kind's map is untouched |
| `DdcNodes.Update` | pallets/ddc-nodes/src/lib.rs:169-185 | fails with the kind's `*DoesNotExist`, leaving state unchanged, exactly when the key is absent. Otherwise only that key's node is overwritten, and the set of keys does not change |
| `DdcNodes.Remove` | pallets/ddc-nodes/src/lib.rs:187-198 | always returns Ok and leaves the key absent, with every other key unchanged. It is a no-op on an absent key |
| `DdcNodes.RemoveIdempotent` | pallets/ddc-nodes/src/lib.rs:187-198 | removing a key twice is the same as removing it once |
| `DdcNodes.RepositoryErrorToError` | pallets/ddc-nodes/src/lib.rs:125-134 | both `*AlreadyExists` become `NodeAlreadyExists`, and both `*DoesNotExist` become `NodeDoesNotExist` |
| `DdcNodes.CreateNode` | pallets/ddc-nodes/src/lib.rs:80-92 | succeeds exactly when key and params agree on the kind, the bytes fit, and the key is free. The errors are `InvalidNodeParams`, then `NodeParamsExceedsLimit`, then `NodeAlreadyExists`, with state unchanged. On success the key holds the caller's unassigned node with the given bytes, and no other key changes |
| `DdcNodes.RemoveNode` | pallets/ddc-nodes/src/lib.rs:94-108 | `NodeDoesNotExist`, then `OnlyNodeProvider`, then `NodeIsAssignedToCluster`, each leaving state unchanged. Succeeds exactly for the provider of an existing unassigned node, and then removes only that key |
| `DdcNodes.CreateThenRemoveRestores` | pallets/ddc-nodes/src/lib.rs:80-108 | a successful `create_node` followed by `remove_node` from the same caller returns the registry to exactly its prior state |
| `DdcNodes.CreateNodeBoundary` | pallets/ddc-nodes/src/cdn_node.rs:82-85 | through `create_node`: 2048 bytes under a free CDN key registers the node. 2049 bytes or more gives `NodeParamsExceedsLimit` on every registry, with state unchanged, so a free key stays free |
| `DdcNodes.AssignedNodeIsNeverRemoved` | pallets/ddc-nodes/src/lib.rs:97-100 | an assigned node is never removed. Its provider gets `NodeIsAssignedToCluster`, any other caller gets `OnlyNodeProvider`, and state is unchanged |
| `DdcNodes.Dispatch` | pallets/ddc-nodes/src/lib.rs:77-109 | a single call changes nothing but the key it names, and keeps the registry well-formed and unassigned |
| `DdcNodes.Run` | pallets/ddc-nodes/src/lib.rs:77-109 | any sequence of calls keeps every node stored under its own key, and never assigns a node to a cluster |
| `DdcNodes.RunLeavesUnnamedKeys` | pallets/ddc-nodes/src/lib.rs:77-109 | a key named by no call in a sequence reads the same after the sequence as before it |
| `DdcNodes.ProviderCanRemoveAfterRun` | pallets/ddc-nodes/src/lib.rs:94-108 | from an empty registry, after any sequence of the pallet's calls, every registered node can be removed by its provider |

## Left out

- Origin handling (`ensure_signed`). The caller is a plain account parameter.
- Events. `deposit_event` is not modelled. Note that `remove_node` emits `NodeCreated` rather than `NodeRemoved` (`lib.rs:103`); the model says nothing about events.
- Weights, SCALE encoding, `Blake2_128Concat` hashing, `GenesisConfig`, and the `parameter_types!` machinery. These are runtime plumbing. The CDN bound is the plain constant 2048. The `u16` type of `MaxCDNNodeParamsLen` does not matter at that value.
- `storage_node.rs` is not part of this model. The Storage kind is modelled as a mirror of the CDN kind, and its props bound has no fixed value.
- `StorageNodeImpl.NewBoundary`: states the boundary relative to the unspecified Storage bound rather than at a concrete byte count, because the Storage bound is defined in `storage_node.rs`, which this model does not cover.
- The staking pallet (bond, unbond, withdraw, chill, controllers, ledger) and the cluster traits (`ClusterVisitor`, `ClusterCreator`, `ClusterManager`). They are separate from the node registry, which does not call them.
- Node-level `get_cluster_id`, `set_params`, `set_props` and `set_cluster_id` are not declared in the `NodeTrait` of `node.rs`. They are modelled as dispatch to the kind implementations in `cdn_node.rs`, the same way the declared accessors dispatch.
- Updates that come from outside the pallet, such as a cluster pallet assigning a node through `Update`, are not part of `Run`. `Run` covers only `create_node` and `remove_node`.
