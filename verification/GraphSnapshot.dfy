/** Structural graph evidence of one immutable source version. */
module GraphSnapshot {

  type NodeId = string
  type FilePath = string
  type ContentHash = string

  datatype Option<+T> = None | Some(value: T)

  datatype Result<+T, +E> = Success(value: T) | Failure(error: E)

  datatype CodeNode = CodeNode(id: NodeId, path: FilePath, line: int, name: string, sourceHash: ContentHash)

  /** Also stands for its own fingerprint: the fingerprint hashes exactly these seven fields. */
  datatype CodeEdge = CodeEdge(
    sourceId: NodeId, targetId: NodeId, relation: string, provenance: string,
    path: FilePath, line: int, sourceHash: ContentHash)

  /** A durable storage name, or the identity derived from extractor version and file hashes. */
  datatype SnapshotId =
    | Stored(name: string)
    | Content(extractorVersion: string, sourceHashes: map<FilePath, ContentHash>)

  datatype CodeGraphSnapshot = CodeGraphSnapshot(
    sourceHashes: map<FilePath, ContentHash>,
    nodes: seq<CodeNode>,
    edges: seq<CodeEdge>,
    extractorVersion: string)
  {
    function Id(): SnapshotId {
      Content(extractorVersion, sourceHashes)
    }
  }

  function Lookup<K, V>(m: map<K, V>, k: K): Option<V> {
    if k in m then Some(m[k]) else None
  }

  predicate Touches(edge: CodeEdge, id: NodeId) {
    edge.sourceId == id || edge.targetId == id
  }
}
