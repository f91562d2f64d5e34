/**
 The coordination-service (ZooKeeper) client as seen from `fillProperties`:
 each call either returns a value or throws. The client is a pair of total
 functions of the znode path, so the model fixes what the service answers
 without performing any I/O.
 */
module Coordination {
  import opened Wrappers
  import opened Jdk

  type Bytes = seq<bv8>

  /** The result of a Java call that may throw. */
  datatype Call<+T> = Returns(value: T) | Throws(thrown: Throwable)

  /**
   `SolrZkClient.exists(path, true)` (`nodeExists`, as `exists` is a Dafny keyword) and `SolrZkClient.getData(path, null,
   null, true)`; `getData` may return `null`, written `None`.
   */
  datatype ZkClient = ZkClient(
    nodeExists: string -> Call<bool>,
    getData: string -> Call<Option<Bytes>>)
}
