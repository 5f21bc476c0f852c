/**
 * `getTelegramEnv`, `monitorConnections` and `StartMonitoring` of
 * monitor.go.  The environment values, the tick timer, the clock and the
 * network are inputs: each tick is given the outcomes its calls would meet
 * and the timestamp it would print.
 */
module Monitor {
  import opened Wrappers
  import opened Traffic
  import opened Stats
  import opened Telegram

  datatype TelegramEnv = TelegramEnv(botToken: string, chatID: string, shouldMonitor: bool)

  /** getTelegramEnv, given the values of BOT_TOKEN and CHAT_ID. */
  function GetTelegramEnv(botTokenVar: string, chatIdVar: string): (e: TelegramEnv)
    ensures e.botToken == botTokenVar && e.chatID == chatIdVar
    ensures e.shouldMonitor <==> |botTokenVar| > 0 && |chatIdVar| > 0
  {
    TelegramEnv(botTokenVar, chatIdVar, botTokenVar != "" && chatIdVar != "")
  }

  /** The report interval StartMonitoring passes: five minutes. */
  const IntervalSeconds: nat := 5 * 60

  /** The fields the message template of one tick interpolates. */
  datatype Report = Report(
    activeConnections: Int64,
    upload: Formatted,
    download: Formatted,
    total: Formatted,
    timestamp: string)

  /** The message fields of one tick: the connection count as is, each traffic counter through formatTraffic. */
  function BuildReport(info: ConnectionInfo, timestamp: string): (r: Report)
    ensures r.activeConnections == info.activeConnections && r.timestamp == timestamp
    ensures r.upload == FormatTraffic(info.uploadTraffic) && r.download == FormatTraffic(info.downloadTraffic)
            && r.total == FormatTraffic(info.totalTraffic)
    ensures UnitOf(r.upload) == UnitFor(info.uploadTraffic)
    ensures UnitOf(r.download) == UnitFor(info.downloadTraffic)
    ensures UnitOf(r.total) == UnitFor(info.totalTraffic)
  {
    Report(info.activeConnections, FormatTraffic(info.uploadTraffic),
           FormatTraffic(info.downloadTraffic), FormatTraffic(info.totalTraffic), timestamp)
  }

  /** What one tick is given: the socket outcomes, the wall-clock text and the reply of the chat service. */
  datatype TickInput = TickInput(dial: IoOutcome, write: IoOutcome, timestamp: string, exchange: HttpOutcome)

  /** A report sent to the configured bot and chat. */
  datatype Notification = Notification(url: string, chatID: string, report: Report)

  datatype TickResult =
    | StatsFailed(error: StatsError)
    | Notified(notification: Notification, delivery: Outcome<SendError>)

  /**
   * One tick: a failed stats query ends it with no message; otherwise the
   * report is sent once and the reply read.  The message is kept as its
   * Report, not as text (its traffic fields need the float rendering), so
   * the tick records the address and the reply's reading rather than the
   * whole request; that reading is the one sendTelegramMessage gives for
   * any message text.
   */
  function Tick(botToken: string, chatID: string, t: TickInput): (r: TickResult)
    ensures r.StatsFailed? <==> GetXRAYStats(t.dial, t.write).result.Err?
    ensures r.StatsFailed? ==> r.error == GetXRAYStats(t.dial, t.write).result.error
    ensures r.Notified? ==> r.notification.url == SendMessageUrl(botToken) && r.notification.chatID == chatID
    ensures r.Notified? ==> forall m :: r.delivery == SendTelegramMessage(botToken, chatID, m, t.exchange).result
    ensures r.Notified? ==> (r.delivery.Pass? <==> t.exchange.Response? && t.exchange.status == StatusOK)
  {
    var q := GetXRAYStats(t.dial, t.write);
    match q.result
    case Err(e) => StatsFailed(e)
    case Ok(info) =>
      Notified(Notification(SendMessageUrl(botToken), chatID, BuildReport(info, t.timestamp)), DeliveryResult(t.exchange))
  }

  /**
   * monitorConnections over the first |ticks| firings of its ticker: a tick
   * whose query fails is logged and skipped, a failed delivery is logged,
   * and in both cases the loop goes on.  No state passes from one tick to
   * the next.
   */
  method MonitorConnections(botToken: string, chatID: string, ticks: seq<TickInput>) returns (log: seq<TickResult>)
    ensures |log| == |ticks|
    ensures forall k :: 0 <= k < |ticks| ==> log[k] == Tick(botToken, chatID, ticks[k])
  {
    log := [];
    var i := 0;
    while i < |ticks|
      invariant 0 <= i <= |ticks|
      invariant |log| == i
      invariant forall k :: 0 <= k < i ==> log[k] == Tick(botToken, chatID, ticks[k])
    {
      var t := ticks[i];
      i := i + 1;
      var q := GetXRAYStats(t.dial, t.write);
      if q.result.Err? {
        log := log + [StatsFailed(q.result.error)];
        continue;
      }
      var report := BuildReport(q.result.value, t.timestamp);
      var delivery := DeliveryResult(t.exchange);
      log := log + [Notified(Notification(SendMessageUrl(botToken), chatID, report), delivery)];
    }
  }

  datatype Startup = Disabled | Started(botToken: string, chatID: string, intervalSeconds: nat)

  /** StartMonitoring's decision: the loop starts, every five minutes, exactly when both values are non-empty. */
  function StartMonitoring(botTokenVar: string, chatIdVar: string): (s: Startup)
    ensures s.Started? <==> botTokenVar != "" && chatIdVar != ""
    ensures s.Started? ==> s == Started(botTokenVar, chatIdVar, IntervalSeconds)
  {
    var env := GetTelegramEnv(botTokenVar, chatIdVar);
    if !env.shouldMonitor then Disabled else Started(env.botToken, env.chatID, IntervalSeconds)
  }

  /** The whole run: no tick ever happens when monitoring is disabled; otherwise every tick runs as Tick says. */
  method RunMonitoring(botTokenVar: string, chatIdVar: string, ticks: seq<TickInput>) returns (log: seq<TickResult>)
    ensures botTokenVar == "" || chatIdVar == "" ==> log == []
    ensures botTokenVar != "" && chatIdVar != "" ==>
      |log| == |ticks| && forall k :: 0 <= k < |ticks| ==> log[k] == Tick(botTokenVar, chatIdVar, ticks[k])
  {
    var s := StartMonitoring(botTokenVar, chatIdVar);
    if s.Disabled? {
      return [];
    }
    log := MonitorConnections(s.botToken, s.chatID, ticks);
  }

  // ---------------------------------------------------------------------
  // Properties of the tick policy
  // ---------------------------------------------------------------------

  /** The stub report: unknown connections, zero traffic printed as "0 B", and the tick's timestamp. */
  function StubReport(timestamp: string): Report
  {
    Report(-1, Exact("0 B"), Exact("0 B"), Exact("0 B"), timestamp)
  }

  /** A tick whose query succeeds sends exactly the stub report: unknown connections, zero traffic printed as "0 B", and its timestamp. */
  lemma TickSendsStub(botToken: string, chatID: string, t: TickInput)
    requires GetXRAYStats(t.dial, t.write).result.Ok?
    ensures Tick(botToken, chatID, t).notification.report == StubReport(t.timestamp)
  {
    SuccessfulQueryIsStub(t.dial, t.write);
  }

  function CountNotified(log: seq<TickResult>): nat
  {
    if log == [] then 0 else (if log[0].Notified? then 1 else 0) + CountNotified(log[1..])
  }

  function CountQueriesOk(ticks: seq<TickInput>): nat
  {
    if ticks == [] then 0
    else (if GetXRAYStats(ticks[0].dial, ticks[0].write).result.Ok? then 1 else 0) + CountQueriesOk(ticks[1..])
  }

  /** A run sends exactly one message per tick whose stats query succeeded. */
  lemma {:induction false} MessagesPerQuery(botToken: string, chatID: string, ticks: seq<TickInput>, log: seq<TickResult>)
    requires |log| == |ticks|
    requires forall k :: 0 <= k < |ticks| ==> log[k] == Tick(botToken, chatID, ticks[k])
    ensures CountNotified(log) == CountQueriesOk(ticks)
  {
    if ticks != [] {
      MessagesPerQuery(botToken, chatID, ticks[1..], log[1..]);
    }
  }

  /** A failing first tick does not stop the loop: with a succeeding second tick exactly one message is sent, on that tick. */
  lemma FailThenSucceed(botToken: string, chatID: string, t1: TickInput, t2: TickInput)
    requires GetXRAYStats(t1.dial, t1.write).result.Err?
    requires GetXRAYStats(t2.dial, t2.write).result.Ok?
    ensures var log := [Tick(botToken, chatID, t1), Tick(botToken, chatID, t2)];
      CountNotified(log) == 1 && log[0].StatsFailed? && log[1].Notified?
  {
    var log := [Tick(botToken, chatID, t1), Tick(botToken, chatID, t2)];
    assert log[1..] == [log[1]] && log[1..][1..] == [];
    assert CountNotified(log[1..]) == 1;
  }
}
