/** The constructor's arguments, their validation and the settings they resolve to
    (server.py, ThreadPoolXMLRPCServer.__init__). */
module Settings {
  import opened Common

  datatype Policy = Block | Close | Fault | Http503

  /** The value of an enumeration member; the constructor takes the member or this text. */
  function PolicyName(p: Policy): string {
    match p
    case Block => "block"
    case Close => "close"
    case Fault => "fault"
    case Http503 => "http_503"
  }

  /** ServerOverloadPolicy(text); None is ValueError. */
  function PolicyNamed(text: string): (p: Option<Policy>)
    ensures p.Some? <==> exists q: Policy :: PolicyName(q) == text
    ensures p.Some? ==> PolicyName(p.value) == text
  {
    if text == "block" then assert PolicyName(Block) == text; Some(Block)
    else if text == "close" then assert PolicyName(Close) == text; Some(Close)
    else if text == "fault" then assert PolicyName(Fault) == text; Some(Fault)
    else if text == "http_503" then assert PolicyName(Http503) == text; Some(Http503)
    else None
  }

  /** The keyword arguments that the constructor checks. Timeouts are compared with 0 only,
      so an integer number of time units is enough here. */
  datatype Arguments = Arguments(
    maxWorkers: int,
    maxPending: Option<int>,
    requestQueueSize: int,
    policy: string,
    maxRequestSize: int,
    connectionTimeout: Option<int>
  )

  datatype Config = Config(
    maxWorkers: nat,
    maxPending: nat,
    requestQueueSize: nat,
    policy: Policy,
    maxRequestSize: nat,
    hasTimeout: bool
  ) {
    /** Initial value of the capacity semaphore. */
    function Capacity(): nat { maxWorkers + maxPending }
  }

  /** The constructor either raises, naming the first bad argument, or resolves the settings.
      Every accepted configuration has room for at least one request. */
  function Resolve(a: Arguments): (r: Result<Config>)
    ensures r.Ok? <==> && a.policy in ["block", "close", "fault", "http_503"]
                       && a.maxWorkers >= 1 && (a.maxPending.None? || a.maxPending.value >= 0)
                       && a.requestQueueSize >= 1 && a.maxRequestSize >= 1
                       && (a.connectionTimeout.None? || a.connectionTimeout.value > 0)
    ensures r.Ok? ==> r.value.maxWorkers >= 1 && r.value.Capacity() >= 1
    ensures r.Ok? && a.maxPending.None? ==> r.value.Capacity() == 2 * a.maxWorkers
    ensures r.Ok? && a.maxPending.Some? ==> r.value.Capacity() - a.maxWorkers == a.maxPending.value
    ensures r.Ok? ==> r.value.maxWorkers == a.maxWorkers && r.value.requestQueueSize == a.requestQueueSize
    ensures r.Ok? ==> r.value.maxRequestSize == a.maxRequestSize
    ensures r.Ok? ==> a.policy == match r.value.policy
                                  case Block => "block"
                                  case Close => "close"
                                  case Fault => "fault"
                                  case Http503 => "http_503"
    ensures r.Ok? ==> (r.value.hasTimeout <==> a.connectionTimeout.Some?)
  {
    var pending := if a.maxPending.None? then a.maxWorkers else a.maxPending.value;
    var policy := PolicyNamed(a.policy);
    if policy.None? then Err("'" + a.policy + "' is not a valid ServerOverloadPolicy")
    else if a.maxWorkers < 1 then Err("max_workers must be at least 1")
    else if pending < 0 then Err("max_pending must be at least 0")
    else if a.requestQueueSize < 1 then Err("request_queue_size must be at least 1")
    else if a.maxRequestSize < 1 then Err("max_request_size must be at least 1")
    else if a.connectionTimeout.Some? && a.connectionTimeout.value <= 0 then
      Err("connection_timeout must be a positive number")
    else
      Ok(Config(a.maxWorkers, pending, a.requestQueueSize, policy.value, a.maxRequestSize,
                a.connectionTimeout.Some?))
  }
}
