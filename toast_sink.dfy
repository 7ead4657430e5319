/**
 * The spdlog sink that mirrors every log record into the toast queue
 * (ImDL's ToastSink): nothing happens before the ImGui context exists;
 * otherwise the record's level picks a toast level and one toast is shown.
 */
module ToastSink {
  import opened Options
  import Logging
  import opened Toasts

  /** The sink's level mapping; levels without a toast level of their own stay at the default, Info. */
  function ToastLevelOf(level: Logging.Level): (r: ToastLevel)
    ensures r == ToastLevel.Error <==> level == Logging.Err
    ensures r == ToastLevel.Warning <==> level == Logging.Warn
    ensures r == ToastLevel.Debug <==> level == Logging.Debug
    ensures r == ToastLevel.Info <==> level.Trace? || level.Info? || level.Critical? || level.Off?
  {
    if level == Logging.Err then ToastLevel.Error
    else if level == Logging.Warn then ToastLevel.Warning
    else if level == Logging.Info then ToastLevel.Info
    else if level == Logging.Debug then ToastLevel.Debug
    else ToastLevel.Info
  }

  /** What one record becomes: nothing without a context, else its payload and toast level. */
  function SinkRecord(hasContext: bool, msg: Logging.LogRecord): (r: Option<(string, ToastLevel)>)
    ensures r.None? <==> !hasContext
    ensures r.Some? ==> r.value.0 == msg.payload && r.value.1 == ToastLevelOf(msg.level)
  {
    if !hasContext then None else Some((msg.payload, ToastLevelOf(msg.level)))
  }

  /** The sink's log call at time `now`; `hasContext` says whether ImGui has a current context. */
  method Log(system: ToastSystem, hasContext: bool, msg: Logging.LogRecord, now: real)
    modifies system
    ensures system.queue == old(system.queue) +
      (if hasContext then [NewToast(msg.payload, ToastLevelOf(msg.level), now)] else [])
    ensures old(system.Valid()) ==> system.Valid()
  {
    if !hasContext {
      return;
    }
    var message := msg.payload;
    var level := ToastLevel.Info;
    if msg.level == Logging.Err {
      level := ToastLevel.Error;
    } else if msg.level == Logging.Warn {
      level := ToastLevel.Warning;
    } else if msg.level == Logging.Info {
      level := ToastLevel.Info;
    } else if msg.level == Logging.Debug {
      level := ToastLevel.Debug;
    }
    system.Show(message, level, now);
  }

  /** The toasts a stream of records leaves behind, one per record, in order, when a context exists. */
  function Mirrored(hasContext: bool, records: seq<Logging.LogRecord>): (r: seq<(string, ToastLevel)>)
    ensures hasContext ==> |r| == |records|
    ensures hasContext ==> forall k :: 0 <= k < |records| ==> r[k] == (records[k].payload, ToastLevelOf(records[k].level))
    ensures !hasContext ==> r == []
  {
    if records == [] then []
    else
      (match SinkRecord(hasContext, records[0]) case None => [] case Some(p) => [p]) +
      Mirrored(hasContext, records[1..])
  }

  /** How many mirrored toasts carry the given toast level. */
  function CountToasts(toasts: seq<(string, ToastLevel)>, level: ToastLevel): nat
  {
    if toasts == [] then 0
    else (if toasts[0].1 == level then 1 else 0) + CountToasts(toasts[1..], level)
  }

  /** Error and warning toasts correspond one to one with err and warn records. */
  lemma {:induction false} MirroredCounts(records: seq<Logging.LogRecord>)
    ensures CountToasts(Mirrored(true, records), ToastLevel.Error) == Logging.CountLevel(records, Logging.Err)
    ensures CountToasts(Mirrored(true, records), ToastLevel.Warning) == Logging.CountLevel(records, Logging.Warn)
    ensures CountToasts(Mirrored(true, records), ToastLevel.Debug) == Logging.CountLevel(records, Logging.Debug)
  {
    if records != [] {
      MirroredCounts(records[1..]);
      var head := (records[0].payload, ToastLevelOf(records[0].level));
      assert Mirrored(true, records) == [head] + Mirrored(true, records[1..]);
      assert ([head] + Mirrored(true, records[1..]))[1..] == Mirrored(true, records[1..]);
    }
  }
}
