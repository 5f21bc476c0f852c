/**
 * `getXRAYStats` of monitor.go: one stats query to the local control
 * socket.  The dial and the write are network calls; their outcomes are
 * inputs here, and the model records the socket operations performed.
 */
module Stats {
  import opened Wrappers
  import opened Traffic

  /** The fixed control-plane endpoint. */
  const ApiAddr: string := "127.0.0.1:10085"

  /** The two-line query command written on the connection. */
  const QueryRequest: string := "StatsService\nQueryStats\n"

  /** ConnectionInfo: the snapshot of one query. */
  datatype ConnectionInfo = ConnectionInfo(
    activeConnections: Int64,
    uploadTraffic: Int64,
    downloadTraffic: Int64,
    totalTraffic: Int64)

  /** The outcome of a dial or a write, decided by the network. */
  datatype IoOutcome = IoOk | IoErr(cause: string)

  /** The calls made on the socket, in order. */
  datatype SocketOp = Dial(addr: string) | Write(data: string) | Close

  datatype StatsError =
    | ConnectFailed(cause: string)  // "failed to connect to XRAY API: ..."
    | SendFailed(cause: string)     // "failed to send request: ..."

  datatype StatsQuery = StatsQuery(result: Result<ConnectionInfo, StatsError>, ops: seq<SocketOp>)

  /** The response is not decoded: the connection count is the sentinel -1 and every other field keeps Go's zero value. */
  const StubInfo: ConnectionInfo := ConnectionInfo(-1, 0, 0, 0)

  /**
   * One query: dial the endpoint, write the command, and answer the stub
   * snapshot.  A failed dial is a ConnectFailed and nothing else happens; a
   * failed write is a SendFailed; once the dial succeeded the connection is
   * closed on every path (the deferred Close).
   */
  function GetXRAYStats(dial: IoOutcome, write: IoOutcome): (q: StatsQuery)
    ensures |q.ops| >= 1 && q.ops[0] == Dial(ApiAddr)
    ensures q.result.Ok? <==> dial.IoOk? && write.IoOk?
    ensures q.result.Ok? ==> q.result.value == StubInfo
    ensures dial.IoErr? ==> q.result == Err(ConnectFailed(dial.cause)) && q.ops == [Dial(ApiAddr)]
    ensures dial.IoOk? && write.IoErr? ==> q.result == Err(SendFailed(write.cause))
    ensures dial.IoOk? ==> q.ops == [Dial(ApiAddr), Write(QueryRequest), Close]
  {
    match dial
    case IoErr(e) => StatsQuery(Err(ConnectFailed(e)), [Dial(ApiAddr)])
    case IoOk =>
      var ops := [Dial(ApiAddr), Write(QueryRequest), Close];
      match write
      case IoErr(e) => StatsQuery(Err(SendFailed(e)), ops)
      case IoOk => StatsQuery(Ok(StubInfo), ops)
  }

  /** The relation between the counters that a decoded snapshot keeps. */
  predicate TotalsConsistent(info: ConnectionInfo)
  {
    info.totalTraffic >= info.uploadTraffic && info.totalTraffic >= info.downloadTraffic
  }

  /**
   * Whatever the network does, a successful query gives the unknown
   * connection count -1 and zero traffic, whose counters are consistent and
   * each print exactly as "0 B".
   */
  lemma SuccessfulQueryIsStub(dial: IoOutcome, write: IoOutcome)
    requires GetXRAYStats(dial, write).result.Ok?
    ensures var info := GetXRAYStats(dial, write).result.value;
      info.activeConnections == -1 && TotalsConsistent(info)
      && FormatTraffic(info.uploadTraffic) == Exact("0 B")
      && FormatTraffic(info.downloadTraffic) == Exact("0 B")
      && FormatTraffic(info.totalTraffic) == Exact("0 B")
  {
    FormatTrafficByteExamples();
  }
}
