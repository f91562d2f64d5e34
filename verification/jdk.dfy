/**
 The parts of the Java platform and of Solr's exception type that
 `ConfUtil.fillProperties` relies on: a `Map<String, Object>` whose values
 may be `null`, and the throwables that can leave or enter its `try` block.
 */
module Jdk {
  import opened Wrappers

  /** A value stored in a `Map<String, Object>`: Java `null` or some object. */
  datatype Value = Null | Str(s: string) | Num(n: int) | Opaque(id: nat)

  /** The caller's configuration map. */
  type Props = map<string, Value>

  /** `Map.get`: the stored value, or `null` when the key is absent. */
  function Get(m: Props, key: string): Value
  {
    if key in m then m[key] else Null
  }

  /** `m.get(key) != null`: absent keys and keys mapped to null are alike. */
  predicate Specified(m: Props, key: string)
  {
    Get(m, key) != Null
  }

  /** The two `SolrException.ErrorCode`s this code raises. */
  datatype ErrorCode = ServerError | ServiceUnavailable

  /** The message a `SolrException` carries, up to its exact wording. */
  datatype Message =
    | NoDataInZk               // "<crossdc properties> file in Zookeeper has no data"
    | LookupFailed             // "Exception looking for CrossDC configuration in Zookeeper"
    | NotSpecified(key: string) // "<key> not specified for producer"
    | CauseMessage             // built from the wrapped cause only

  /**
   A Java throwable. `OtherException` is any `java.lang.Exception` that is
   neither interrupted nor a `SolrException` (a ZooKeeper `KeeperException`,
   an `IOException`, a `RuntimeException` from a collaborator); `JavaError` is
   a `java.lang.Error`, which `catch (Exception e)` does not catch.
   */
  datatype Throwable =
    | InterruptedException(detail: string)
    | SolrException(code: ErrorCode, message: Message, cause: Option<Throwable>)
    | OtherException(className: string, detail: string)
    | JavaError(className: string, detail: string)

  /** Whether `t` is an instance of `java.lang.Exception`. */
  predicate IsException(t: Throwable)
  {
    !t.JavaError?
  }
}
