/**
 `ConfUtil.fillProperties(solrClient, properties)`: overlay the CrossDC
 configuration stored in ZooKeeper, if there is any, onto the caller's map,
 then insist that `bootstrapServers` and `topicName` are set.

 The Java method mutates its map argument in place and reports failure by
 throwing. Here it is a pure function from its collaborators and the map on
 entry to a `Run`: how the call ended, the map as the caller sees it
 afterwards, and whether the method re-asserted the thread's interrupt flag.
 */
module ConfUtil {
  import opened Wrappers
  import opened Jdk
  import opened Coordination

  /** `KafkaCrossDcConf.BOOTSTRAP_SERVERS`. */
  const BootstrapServers: string := "bootstrapServers"
  /** `KafkaCrossDcConf.TOPIC_NAME`. */
  const TopicName: string := "topicName"
  /** The keys that must be non-null once the remote phase is over, in the order they are checked. */
  const RequiredKeys: seq<string> := [BootstrapServers, TopicName]

  /** A loaded `java.util.Properties`: string keys to string values. */
  type ZkProps = map<string, string>

  /**
   What `KafkaCrossDcConf.readZkProps(properties, zkProps)` leaves behind:
   the caller's map as it stands after the call, and what the call threw,
   if anything. The map is changed in place, so a throw may follow a
   partial change.
   */
  datatype Overlay = Overlay(props: Props, thrown: Option<Throwable>)

  /**
   Everything `fillProperties` calls but does not define: the ZooKeeper
   client, the znode path both client calls use (the value of the system
   property `ZK_CROSSDC_PROPS_PATH`, defaulting to `CROSSDC_PROPERTIES`),
   `Properties.load`, and `KafkaCrossDcConf.readZkProps`.
   */
  datatype Collaborators = Collaborators(
    client: ZkClient,
    path: string,
    load: Bytes -> Call<ZkProps>,
    readZkProps: (Props, ZkProps) -> Overlay)

  /**
   How the `try` block ends: the throwable leaving it, if any, the caller's
   map at that moment, and the properties handed to `readZkProps`, if that
   call was made.
   */
  datatype TryExit = TryExit(thrown: Option<Throwable>, props: Props, zkProps: Option<ZkProps>)

  /** How a call of `fillProperties` ends. */
  datatype Outcome = Normal | Raised(thrown: Throwable)

  /** The effect of one call of `fillProperties`, as its caller observes it. */
  datatype Run = Run(outcome: Outcome, props: Props, zkProps: Option<ZkProps>, interruptRaised: bool)

  /** The `SolrException` thrown when the znode exists but holds no data. */
  const NoDataError: Throwable := SolrException(ServerError, NoDataInZk, None)

  /** The `SolrException` thrown when a required key is not set. */
  function NotSpecifiedError(key: string): Throwable
  {
    SolrException(ServerError, NotSpecified(key), None)
  }

  /**
   The `try` block: look the znode up, fetch and parse its payload, and
   hand the result to `readZkProps`. Nothing but `readZkProps` touches the
   caller's map, and it runs only on a payload that was fetched and parsed.
   */
  function RemotePhase(env: Collaborators, props: Props): (x: TryExit)
    ensures x.zkProps.None? ==> x.props == props
    ensures x.zkProps.Some? ==> x.props == env.readZkProps(props, x.zkProps.value).props
    ensures x.zkProps.Some? ==>
              && env.client.nodeExists(env.path) == Returns(true)
              && env.client.getData(env.path).Returns?
              && env.client.getData(env.path).value.Some?
              && env.load(env.client.getData(env.path).value.value) == Returns(x.zkProps.value)
    ensures env.client.nodeExists(env.path) == Returns(false) ==> x == TryExit(None, props, None)
    ensures env.client.nodeExists(env.path).Throws? ==>
              x == TryExit(Some(env.client.nodeExists(env.path).thrown), props, None)
    ensures env.client.nodeExists(env.path) == Returns(true) ==>
              && (env.client.getData(env.path).Throws? ==>
                    x == TryExit(Some(env.client.getData(env.path).thrown), props, None))
              && (env.client.getData(env.path) == Returns(None) ==>
                    x == TryExit(Some(NoDataError), props, None))
    ensures forall data: Bytes | env.client.nodeExists(env.path) == Returns(true)
                                 && env.client.getData(env.path) == Returns(Some(data)) ::
              && (env.load(data).Throws? ==> x == TryExit(Some(env.load(data).thrown), props, None))
              && (env.load(data).Returns? ==>
                    var overlay := env.readZkProps(props, env.load(data).value);
                    x == TryExit(overlay.thrown, overlay.props, Some(env.load(data).value)))
  {
    match env.client.nodeExists(env.path)
    case Throws(t) => TryExit(Some(t), props, None)
    case Returns(found) =>
      if !found then TryExit(None, props, None)
      else
        match env.client.getData(env.path)
        case Throws(t) => TryExit(Some(t), props, None)
        case Returns(data) =>
          if data.None? then TryExit(Some(NoDataError), props, None)
          else
            match env.load(data.value)
            case Throws(t) => TryExit(Some(t), props, None)
            case Returns(zkProps) =>
              var overlay := env.readZkProps(props, zkProps);
              TryExit(overlay.thrown, overlay.props, Some(zkProps))
  }

  /** What the two `catch` clauses make of a throwable leaving the `try` block. */
  datatype Rethrown = Rethrown(thrown: Throwable, interruptRaised: bool)

  /**
   The `catch` clauses. Every `Exception` is wrapped in a fresh
   `SolrException` whose cause is the original; only an interruption yields
   SERVICE_UNAVAILABLE and re-asserts the interrupt flag. A `java.lang.Error`
   passes through both clauses untouched.
   */
  function Rethrow(t: Throwable): (r: Rethrown)
    ensures r.interruptRaised <==> t.InterruptedException?
    ensures IsException(t) ==>
              && r.thrown.SolrException?
              && r.thrown.cause == Some(t)
              && (r.thrown.code == ServiceUnavailable <==> t.InterruptedException?)
              && (r.thrown.message == LookupFailed <==> !t.InterruptedException?)
    ensures !IsException(t) ==> r.thrown == t
  {
    match t
    case InterruptedException(_) => Rethrown(SolrException(ServiceUnavailable, CauseMessage, Some(t)), true)
    case JavaError(_, _) => Rethrown(t, false)
    case _ => Rethrown(SolrException(ServerError, LookupFailed, Some(t)), false)
  }

  /**
   Reference definition of an ordered presence check: the index of the
   first of `keys` that `m` does not specify, if any.
   */
  function FirstMissing(keys: seq<string>, m: Props): (r: Option<nat>)
    ensures r.Some? ==> r.value < |keys| && !Specified(m, keys[r.value])
    ensures r.Some? ==> forall j | 0 <= j < r.value :: Specified(m, keys[j])
    ensures r.None? <==> forall j | 0 <= j < |keys| :: Specified(m, keys[j])
  {
    if |keys| == 0 then None
    else if !Specified(m, keys[0]) then Some(0)
    else
      match FirstMissing(keys[1..], m)
      case None => None
      case Some(i) => Some(i + 1)
  }

  /**
   The validation gate after the `try` statement: the call returns normally
   exactly when every required key is non-null, and otherwise fails naming
   the first required key, in order, that is not (as `FirstMissing` finds it).
   */
  function Validate(props: Props): (o: Outcome)
    ensures o.Normal? <==> forall j | 0 <= j < |RequiredKeys| :: Specified(props, RequiredKeys[j])
    ensures o.Raised? <==> FirstMissing(RequiredKeys, props).Some?
    ensures o.Raised? ==> o.thrown == NotSpecifiedError(RequiredKeys[FirstMissing(RequiredKeys, props).value])
  {
    if !Specified(props, BootstrapServers) then
      assert RequiredKeys[0] == BootstrapServers;
      Raised(NotSpecifiedError(BootstrapServers))
    else if !Specified(props, TopicName) then
      assert RequiredKeys[1] == TopicName;
      Raised(NotSpecifiedError(TopicName))
    else
      assert forall j | 0 <= j < |RequiredKeys| :: RequiredKeys[j] in {BootstrapServers, TopicName};
      Normal
  }

  /**
   `fillProperties` as a whole. It returns normally exactly when the remote
   phase completes and both required keys are then non-null; the map the
   caller is left with is the one the remote phase left, whether or not the
   call fails afterwards; and the interrupt flag is re-asserted exactly when
   the call fails with SERVICE_UNAVAILABLE.
   */
  function FillProperties(env: Collaborators, props: Props): (run: Run)
    ensures run.outcome.Normal? <==>
              && RemotePhase(env, props).thrown.None?
              && Specified(run.props, BootstrapServers)
              && Specified(run.props, TopicName)
    ensures run.props == RemotePhase(env, props).props
    ensures run.zkProps.None? ==> run.props == props
    ensures run.zkProps.Some? ==> run.props == env.readZkProps(props, run.zkProps.value).props
    ensures run.interruptRaised <==>
              run.outcome.Raised? && run.outcome.thrown.SolrException? && run.outcome.thrown.code == ServiceUnavailable
    ensures RemotePhase(env, props).thrown.None? ==> run.outcome == Validate(run.props)
    ensures RemotePhase(env, props).thrown.Some? ==>
              && run.outcome == Raised(Rethrow(RemotePhase(env, props).thrown.value).thrown)
              && run.interruptRaised == Rethrow(RemotePhase(env, props).thrown.value).interruptRaised
  {
    var exit := RemotePhase(env, props);
    match exit.thrown
    case Some(t) =>
      var r := Rethrow(t);
      Run(Raised(r.thrown), exit.props, exit.zkProps, r.interruptRaised)
    case None =>
      Run(Validate(exit.props), exit.props, exit.zkProps, false)
  }
}
