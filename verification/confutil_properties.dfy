/**
 Properties of `ConfUtil.fillProperties` that relate its outcome to what
 its collaborators did: which failures reach the caller in which form, when
 the validation gate is reached, and what it depends on.
 */
module ConfUtilProperties {
  import opened Wrappers
  import opened Jdk
  import opened Coordination
  import opened ConfUtil

  /**
   With no znode at the path, the map reaching the gate is the caller's own
   map, nothing is fetched or overlaid, the outcome is the gate's verdict on
   that map, and the call succeeds exactly when the caller already set both
   required keys.
   */
  lemma PathAbsentUsesLocalOnly(env: Collaborators, props: Props)
    requires env.client.nodeExists(env.path) == Returns(false)
    ensures FillProperties(env, props).props == props
    ensures FillProperties(env, props).zkProps == None
    ensures !FillProperties(env, props).interruptRaised
    ensures FillProperties(env, props).outcome == Validate(props)
    ensures FillProperties(env, props).outcome.Normal? <==>
              Specified(props, BootstrapServers) && Specified(props, TopicName)
  {
  }

  /**
   With no znode at the path, the outcome depends only on whether the
   caller's map specifies the two required keys: neither the rest of the
   map nor the other collaborators matter.
   */
  lemma PathAbsentDependsOnlyOnRequiredKeys(env1: Collaborators, props1: Props, env2: Collaborators, props2: Props)
    requires env1.client.nodeExists(env1.path) == Returns(false)
    requires env2.client.nodeExists(env2.path) == Returns(false)
    requires Specified(props1, BootstrapServers) == Specified(props2, BootstrapServers)
    requires Specified(props1, TopicName) == Specified(props2, TopicName)
    ensures FillProperties(env1, props1).outcome == FillProperties(env2, props2).outcome
  {
  }

  /**
   A znode without data is not reported as such: the no-data
   `SolrException` is caught by `catch (Exception e)` and rewrapped as the
   generic lookup failure, with the no-data error as its cause. The map is
   untouched, as `readZkProps` never runs.
   */
  lemma NullPayloadIsRewrapped(env: Collaborators, props: Props)
    requires env.client.nodeExists(env.path) == Returns(true)
    requires env.client.getData(env.path) == Returns(None)
    ensures FillProperties(env, props) ==
              Run(Raised(SolrException(ServerError, LookupFailed, Some(NoDataError))), props, None, false)
    ensures FillProperties(env, props).outcome.thrown.message != NoDataInZk
  {
  }

  /**
   An interrupted `exists` or `getData` fails the call with
   SERVICE_UNAVAILABLE wrapping the interruption and re-asserts the
   interrupt flag; the gate is never reached, so the outcome does not
   depend on the map.
   */
  lemma InterruptSkipsValidation(env: Collaborators, props: Props, detail: string)
    requires || env.client.nodeExists(env.path) == Throws(InterruptedException(detail))
             || (&& env.client.nodeExists(env.path) == Returns(true)
                 && env.client.getData(env.path) == Throws(InterruptedException(detail)))
    ensures FillProperties(env, props) ==
              Run(Raised(SolrException(ServiceUnavailable, CauseMessage, Some(InterruptedException(detail)))),
                  props, None, true)
  {
  }

  /**
   Any other exception from `exists`, `getData`, `Properties.load` or
   `readZkProps` fails the call with SERVER_ERROR wrapping that exception as
   its cause; the gate is never reached and the interrupt flag is left
   alone. A throwing `readZkProps` keeps whatever it already did to the map.
   */
  lemma OtherFailureWrapsCause(env: Collaborators, props: Props, t: Throwable, data: Bytes, zkProps: ZkProps)
    requires IsException(t) && !t.InterruptedException?
    requires || env.client.nodeExists(env.path) == Throws(t)
             || (&& env.client.nodeExists(env.path) == Returns(true)
                 && env.client.getData(env.path) == Throws(t))
             || (&& env.client.nodeExists(env.path) == Returns(true)
                 && env.client.getData(env.path) == Returns(Some(data))
                 && env.load(data) == Throws(t))
             || (&& env.client.nodeExists(env.path) == Returns(true)
                 && env.client.getData(env.path) == Returns(Some(data))
                 && env.load(data) == Returns(zkProps)
                 && env.readZkProps(props, zkProps).thrown == Some(t))
    ensures FillProperties(env, props).outcome == Raised(SolrException(ServerError, LookupFailed, Some(t)))
    ensures !FillProperties(env, props).interruptRaised
    ensures (&& env.client.nodeExists(env.path) == Returns(true)
             && env.client.getData(env.path) == Returns(Some(data))
             && env.load(data) == Returns(zkProps)
             && env.readZkProps(props, zkProps).thrown == Some(t)) ==>
              FillProperties(env, props).props == env.readZkProps(props, zkProps).props
  {
  }

  /** A `java.lang.Error` from a collaborator escapes both catch clauses unchanged. */
  lemma ErrorPassesThrough(env: Collaborators, props: Props, t: Throwable)
    requires t.JavaError?
    requires RemotePhase(env, props).thrown == Some(t)
    ensures FillProperties(env, props).outcome == Raised(t)
    ensures !FillProperties(env, props).interruptRaised
  {
  }

  /** The gate cannot tell a key mapped to null from an absent key. */
  lemma NullActsAsAbsent(props: Props, key: string)
    ensures Validate(props[key := Null]) == Validate(props - {key})
  {
  }

  /** With both keys missing, the failure names `bootstrapServers`. */
  lemma BootstrapServersCheckedFirst(props: Props)
    requires !Specified(props, BootstrapServers)
    ensures Validate(props) == Raised(NotSpecifiedError(BootstrapServers))
  {
  }

  /** A failure names `topicName` only once `bootstrapServers` is set. */
  lemma TopicNameReportedOnlyAfterBootstrapServers(props: Props)
    ensures Validate(props) == Raised(NotSpecifiedError(TopicName)) <==>
              Specified(props, BootstrapServers) && !Specified(props, TopicName)
  {
  }

  /** The ordered check looks only at whether each key is specified. */
  lemma FirstMissingDependsOnlyOnPresence(keys: seq<string>, m1: Props, m2: Props)
    requires forall j | 0 <= j < |keys| :: Specified(m1, keys[j]) == Specified(m2, keys[j])
    ensures FirstMissing(keys, m1) == FirstMissing(keys, m2)
  {
  }

  /**
   A payload that is fetched, parsed and overlaid without a throw ends the
   `try` block normally: the gate then judges the map `readZkProps`
   produced, and that map is what the caller keeps.
   */
  lemma OverlaySucceeds(env: Collaborators, props: Props, data: Bytes, zkProps: ZkProps)
    requires env.client.nodeExists(env.path) == Returns(true)
    requires env.client.getData(env.path) == Returns(Some(data))
    requires env.load(data) == Returns(zkProps)
    requires env.readZkProps(props, zkProps).thrown == None
    ensures FillProperties(env, props) ==
              Run(Validate(env.readZkProps(props, zkProps).props), env.readZkProps(props, zkProps).props, Some(zkProps), false)
    ensures FillProperties(env, props).outcome.Normal? <==>
              && Specified(env.readZkProps(props, zkProps).props, BootstrapServers)
              && Specified(env.readZkProps(props, zkProps).props, TopicName)
  {
  }

  /**
   When the gate fails after a successful overlay, the changes `readZkProps`
   made stay in the caller's map: nothing is rolled back.
   */
  lemma NoRollbackOnValidationFailure(env: Collaborators, props: Props, data: Bytes, zkProps: ZkProps)
    requires env.client.nodeExists(env.path) == Returns(true)
    requires env.client.getData(env.path) == Returns(Some(data))
    requires env.load(data) == Returns(zkProps)
    requires env.readZkProps(props, zkProps).thrown == None
    requires !Specified(env.readZkProps(props, zkProps).props, BootstrapServers)
             || !Specified(env.readZkProps(props, zkProps).props, TopicName)
    ensures FillProperties(env, props).outcome.Raised?
    ensures FillProperties(env, props).props == env.readZkProps(props, zkProps).props
    ensures FillProperties(env, props).outcome == Validate(env.readZkProps(props, zkProps).props)
  {
  }
}
