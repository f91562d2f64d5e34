# CrossDC producer configuration resolution, in Dafny

This project models `ConfUtil.fillProperties` of the Solr CrossDC producer.
That method builds the producer's configuration map in three steps:

1. Remote phase. If the CrossDC properties znode exists in ZooKeeper, it
   fetches the payload, loads it as `java.util.Properties` and hands it to
   `KafkaCrossDcConf.readZkProps`, which overlays it onto the caller's map.
2. Catch clauses. They turn any failure of that phase into a
   `SolrException`.
3. Validation gate. It requires `bootstrapServers` and then `topicName` to be
   non-null.

The Java method mutates its map argument and fails by throwing. The model is a
pure function, `ConfUtil.FillProperties`. Its inputs are the collaborators'
behaviour and the map on entry. Its result is a `Run` with four parts: how
the call ended (`Normal` or `Raised(throwable)`), the map the caller is left
with, the properties handed to `readZkProps` if that call happened, and
whether the method re-asserted the thread's interrupt flag.

Files:

- `wrappers.dfy`: `Option`, which stands for a nullable reference.
- `jdk.dfy`: the values of a `Map<String, Object>` (with `null`), `Map.get`,
  the two `SolrException.ErrorCode`s, and the throwable hierarchy as far as
  the catch clauses distinguish it. That is `InterruptedException`,
  `SolrException`, any other `Exception`, and `java.lang.Error`.
- `coordination.dfy`: the ZooKeeper client. `exists` and `getData` are total
  functions of the path that either return or throw.
- `confutil.dfy`: the method, split along its structure. `RemotePhase` is
  the `try` block, `Rethrow` the catch clauses and `Validate` the gate.
  `FirstMissing` is a reference definition of an ordered required-key check.
- `confutil_properties.dfy`: lemmas about the whole call.

An existing znode without data is not reported as its own failure. The
no-data `SolrException` is thrown inside the `try` block, so the generic
`catch (Exception e)` catches it and rewraps it. The caller sees only the
generic SERVER_ERROR lookup failure, with the no-data error as its cause
(`NullPayloadIsRewrapped`).

## Model

| member | source | states |
|---|---|---|
| ConfUtil.RemotePhase | crossdc-producer/src/main/java/org/apache/solr/update/processor/ConfUtil.java:39-55 | The caller's map changes only through `readZkProps`. That call runs only after `exists` returned true, `getData` returned a payload and `load` parsed it into the properties handed over. A missing znode ends the block normally with the map untouched. A throw from `exists`, `getData` or `load`, or a null payload, ends it with that throwable (the no-data error for a null payload) and the map untouched. After a successful `load`, the block ends with whatever `readZkProps` threw, if anything, and the map `readZkProps` left. |
| ConfUtil.Rethrow | crossdc-producer/src/main/java/org/apache/solr/update/processor/ConfUtil.java:56-63 | Every `Exception` leaving the try block becomes a `SolrException` whose cause is the original. The code is SERVICE_UNAVAILABLE exactly for an interruption, otherwise the generic lookup failure. The interrupt flag is re-asserted exactly for an interruption. A `java.lang.Error` passes through unchanged. |
| ConfUtil.FirstMissing | crossdc-producer/src/main/java/org/apache/solr/update/processor/ConfUtil.java:65-77 | Reference for an ordered presence check: the index of the first key the map does not specify (all earlier ones are specified), or none exactly when every key is specified. |
| ConfUtil.Validate | crossdc-producer/src/main/java/org/apache/solr/update/processor/ConfUtil.java:65-77 | The gate passes exactly when every required key is non-null. Otherwise it fails with SERVER_ERROR naming the first unset key of `[bootstrapServers, topicName]`, as the ordered reference check finds it. |
| ConfUtil.FillProperties | crossdc-producer/src/main/java/org/apache/solr/update/processor/ConfUtil.java:37-78 | The call returns normally exactly when the remote phase throws nothing and both required keys are then non-null. The caller keeps the map the remote phase left, even on failure. That map differs from the input only through the single `readZkProps` call. The interrupt flag is raised exactly when the call fails with SERVICE_UNAVAILABLE. When the remote phase throws nothing, the outcome is the gate's verdict on that map; when it throws, the outcome and the interrupt flag are what the catch clauses make of the throwable. |
| ConfUtilProperties.PathAbsentUsesLocalOnly | crossdc-producer/src/main/java/org/apache/solr/update/processor/ConfUtil.java:40-77 | With no znode, the map is unchanged and nothing is loaded. The outcome is the gate's verdict on the caller's own map, so it succeeds exactly when that map sets both required keys and otherwise names the first unset one. |
| ConfUtilProperties.PathAbsentDependsOnlyOnRequiredKeys | crossdc-producer/src/main/java/org/apache/solr/update/processor/ConfUtil.java:40-77 | With no znode, two calls whose maps agree on whether the two required keys are set end identically, whatever else the maps or collaborators hold. |
| ConfUtilProperties.NullPayloadIsRewrapped | crossdc-producer/src/main/java/org/apache/solr/update/processor/ConfUtil.java:45-62 | An existing znode with null data fails with SERVER_ERROR and the generic lookup message, wrapping the no-data error. The map is unchanged, `readZkProps` never runs and the no-data message never reaches the caller. |
| ConfUtilProperties.InterruptSkipsValidation | crossdc-producer/src/main/java/org/apache/solr/update/processor/ConfUtil.java:40-59 | An interrupted `exists` or `getData` fails with SERVICE_UNAVAILABLE wrapping the interruption and raises the interrupt flag. The map is unchanged and the gate is not reached. |
| ConfUtilProperties.OtherFailureWrapsCause | crossdc-producer/src/main/java/org/apache/solr/update/processor/ConfUtil.java:39-62 | Any other exception from `exists`, `getData`, `load` or `readZkProps` fails with SERVER_ERROR and the lookup message, wrapping that exception. The interrupt flag is not raised. When `readZkProps` threw, the caller keeps the map as `readZkProps` left it. |
| ConfUtilProperties.ErrorPassesThrough | crossdc-producer/src/main/java/org/apache/solr/update/processor/ConfUtil.java:56-63 | A `java.lang.Error` from the try block reaches the caller as it was thrown, without wrapping and without touching the interrupt flag. |
| ConfUtilProperties.NullActsAsAbsent | crossdc-producer/src/main/java/org/apache/solr/update/processor/ConfUtil.java:65-77 | The gate gives the same outcome whether a key is mapped to null or absent. |
| ConfUtilProperties.BootstrapServersCheckedFirst | crossdc-producer/src/main/java/org/apache/solr/update/processor/ConfUtil.java:65-70 | When `bootstrapServers` is unset, the failure names `bootstrapServers`, whatever `topicName` holds. |
| ConfUtilProperties.TopicNameReportedOnlyAfterBootstrapServers | crossdc-producer/src/main/java/org/apache/solr/update/processor/ConfUtil.java:65-77 | The failure names `topicName` if and only if `bootstrapServers` is set and `topicName` is not. |
| ConfUtilProperties.FirstMissingDependsOnlyOnPresence | crossdc-producer/src/main/java/org/apache/solr/update/processor/ConfUtil.java:65-77 | The ordered check looks only at whether each key's `get` is null. Maps that agree on that give the same answer. |
| ConfUtilProperties.OverlaySucceeds | crossdc-producer/src/main/java/org/apache/solr/update/processor/ConfUtil.java:40-77 | When the znode exists, its payload is fetched and parsed, and `readZkProps` does not throw, the call ends with the gate's verdict on the map `readZkProps` produced. The caller keeps that map, the parsed properties are recorded and the interrupt flag stays clear. The call succeeds exactly when that map sets both required keys. |
| ConfUtilProperties.NoRollbackOnValidationFailure | crossdc-producer/src/main/java/org/apache/solr/update/processor/ConfUtil.java:54-77 | When a successful overlay leaves a required key unset, the call fails with the gate's verdict, and the caller still keeps the map `readZkProps` produced. |

## Left out

- The ZooKeeper calls are not performed. `exists` and `getData` are inputs that say, for each path, what the call returns or throws. Retries, watches and timeouts belong to the client.
- Path resolution through `System.getProperty(ZK_CROSSDC_PROPS_PATH, CROSSDC_PROPERTIES)` is a process-environment read. The path is a parameter, and both reads are taken to yield the same value.
- `Properties.load` is an uninterpreted function from bytes to a string map or a throwable. The properties text format is not modelled.
- `KafkaCrossDcConf.readZkProps` is not part of this model. It is an uninterpreted function from the map and the loaded properties to the map afterwards and an optional throwable. No precedence policy (local values winning, or filling only missing keys) is claimed for it.
- SLF4J logging is a side effect only. The `zkProps` part of a `Run` records what the log lines would show.
- The caller's map is assumed non-null. In Java, a null `properties` argument with no znode makes `properties.get` (`ConfUtil.java:65`) throw a `NullPointerException` outside the `try`, which reaches the caller unwrapped. The model cannot express that case.
- Exception messages are modelled by kind (no data, lookup failed, a named key not specified, taken from the cause), not by exact wording.
- The interrupt flag is modelled as a plain boolean recording whether the method called `Thread.currentThread().interrupt()`. Real thread state, including how the blocking call itself treats the flag, is not modelled.
- The numeric HTTP codes behind `SolrException.ErrorCode` are not modelled. Only the two codes used here are told apart.
