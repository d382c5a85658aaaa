/**
 * The application logger (`LoggerFactory`): a named logger with a level and a
 * list of handlers, of which the database handler saves each record it is
 * given into the log store. Only the parts of the standard logging machinery
 * the factory relies on are modelled: levels and their numbers, the effective
 * level (a logger left at NOTSET defers to the root logger), and dispatch to
 * the handlers in order.
 */
module Logging {
  import opened Wrappers
  import opened Common
  import opened LogModels

  datatype Level = NotSet | Debug | Info | Warning | Error | Critical
  {
    /** The standard numeric value of the level. */
    function Number(): nat
    {
      match this
      case NotSet => 0
      case Debug => 10
      case Info => 20
      case Warning => 30
      case Error => 40
      case Critical => 50
    }

    /** The level name a record carries (`levelname`). */
    function Name(): string
    {
      match this
      case NotSet => "NOTSET"
      case Debug => "DEBUG"
      case Info => "INFO"
      case Warning => "WARNING"
      case Error => "ERROR"
      case Critical => "CRITICAL"
    }
  }

  /** Levels are ordered by their numbers, and the number determines the level. */
  lemma NumberIsInjective(a: Level, b: Level)
    ensures a.Number() == b.Number() <==> a == b
    ensures a.Name() == b.Name() <==> a == b
  {
  }

  /** Exactly the levels the application emits at, and the two above them, can be stored. */
  lemma StorableLevels(l: Level)
    ensures l.Name() in LEVEL_CHOICES <==> l.Number() >= Info.Number()
  {
  }

  /** The default format and the date format the file and stream handlers use. */
  const LOG_FORMAT := "%(asctime)s [%(levelname)s]: %(message)s"
  const DATE_FORMAT := "%Y-%m-%d %H:%M:%S"

  /** A handler attached to the logger; the file and stream handlers write text out of the model's view. */
  datatype Handler = FileHandler(path: string, format: string) | StreamHandler(format: string) | DatabaseHandler

  /** The level the factory's `if` chain selects for a level name. */
  function SelectedLevel(logLevel: string): (l: Level)
    ensures l == Info <==> logLevel == "INFO"
    ensures l == Error <==> logLevel == "ERROR"
    ensures l == Debug <==> logLevel == "DEBUG"
    ensures l == NotSet <==> logLevel !in ["INFO", "ERROR", "DEBUG"]
  {
    if logLevel == "INFO" then Info
    else if logLevel == "ERROR" then Error
    else if logLevel == "DEBUG" then Debug
    else NotSet
  }

  /** The handlers one call of the factory attaches, in order. */
  function FactoryHandlers(logFile: string): seq<Handler>
  {
    [FileHandler(logFile, LOG_FORMAT), StreamHandler(LOG_FORMAT), DatabaseHandler]
  }

  function CountDatabase(handlers: seq<Handler>): (n: nat)
    ensures n <= |handlers|
  {
    if handlers == [] then 0
    else CountDatabase(handlers[..|handlers| - 1]) + (if handlers[|handlers| - 1].DatabaseHandler? then 1 else 0)
  }

  /** A prefix of the handlers never holds more database handlers than the whole list. */
  lemma {:induction false} CountPrefix(handlers: seq<Handler>, j: nat)
    requires j <= |handlers|
    ensures CountDatabase(handlers[..j]) <= CountDatabase(handlers)
    decreases |handlers|
  {
    if j < |handlers| {
      var init := handlers[..|handlers| - 1];
      assert handlers[..j] == init[..j];
      CountPrefix(init, j);
    } else {
      assert handlers[..j] == handlers;
    }
  }

  /** Each call of the factory adds one more database handler to the logger. */
  lemma {:induction false} CountDatabaseAppend(handlers: seq<Handler>, logFile: string)
    ensures CountDatabase(handlers + FactoryHandlers(logFile)) == CountDatabase(handlers) + 1
  {
    var h1 := handlers + [FileHandler(logFile, LOG_FORMAT)];
    var h2 := h1 + [StreamHandler(LOG_FORMAT)];
    var h3 := h2 + [DatabaseHandler];
    assert h3 == handlers + FactoryHandlers(logFile);
    assert h1[..|h1| - 1] == handlers;
    assert h2[..|h2| - 1] == h1;
    assert h3[..|h3| - 1] == h2;
    assert CountDatabase(h1) == CountDatabase(handlers);
    assert CountDatabase(h2) == CountDatabase(h1);
  }

  /** The records `k` database handlers save for one message, numbered from `firstId`. */
  function Copies(k: nat, firstId: nat, logFile: string, infoType: string, message: string, now: nat): (rs: seq<LogRecord>)
    ensures |rs| == k
    ensures forall i :: 0 <= i < k ==> rs[i] == LogRecord(firstId + i, logFile, infoType, message, now)
  {
    if k == 0 then [] else Copies(k - 1, firstId, logFile, infoType, message, now) + [LogRecord(firstId + k - 1, logFile, infoType, message, now)]
  }

  /**
   * What one log call does to the saved records, given whether its level is
   * enabled and how many database handlers the logger has: every database
   * handler saves a copy, or the first one raises the save's ValidationError.
   */
  function Emitted(enabled: bool, k: nat, records: seq<LogRecord>, logFile: string, infoType: string, message: string, now: nat)
    : (r: (seq<LogRecord>, Option<string>))
    ensures records <= r.0
    ensures r.1.Some? ==> r.0 == records
    ensures r.1.None? && enabled && LogErrors(infoType, message) == [] ==> |r.0| == |records| + k
  {
    if !enabled || k == 0 then (records, None)
    else if LogErrors(infoType, message) != [] then (records, Some(SaveErrorMessage(LOG_CLASS, LogErrors(infoType, message))))
    else (records + Copies(k, |records|, logFile, infoType, message, now), None)
  }

  /** With one database handler, an enabled, storable record is saved exactly once, with the next id. */
  lemma EmittedOnce(records: seq<LogRecord>, logFile: string, infoType: string, message: string, now: nat)
    requires LogErrors(infoType, message) == []
    ensures Emitted(true, 1, records, logFile, infoType, message, now)
         == (records + [LogRecord(|records|, logFile, infoType, message, now)], None)
  {
    assert Copies(1, |records|, logFile, infoType, message, now) == [LogRecord(|records|, logFile, infoType, message, now)];
  }

  /**
   * A message longer than 512 characters is never saved; when it reaches a
   * database handler at a storable level, the call raises the too-long error.
   */
  lemma LongMessageNeverStored(enabled: bool, k: nat, records: seq<LogRecord>, logFile: string, infoType: string, message: string, now: nat)
    requires |message| > MAX_MESSAGE
    ensures Emitted(enabled, k, records, logFile, infoType, message, now).0 == records
    ensures enabled && k > 0 && infoType in LEVEL_CHOICES ==>
      Emitted(enabled, k, records, logFile, infoType, message, now).1
        == Some("ValidationError (" + LOG_CLASS + ":None) (" + STRING_TOO_LONG + ": ['message'])")
  {
    if infoType in LEVEL_CHOICES {
      LongMessageRefused(infoType, message);
    }
  }

  class Logger {
    /** The logger's name: the factory names it after the log file. */
    const name: string
    /** The level of the root logger, which a logger at NOTSET defers to (WARNING unless configured). */
    const rootLevel: Level
    var level: Level
    var handlers: seq<Handler>

    /** A logger as `logging.getLogger` first creates it: level NOTSET and no handlers. */
    constructor (name: string, rootLevel: Level)
      ensures this.name == name && this.rootLevel == rootLevel
      ensures level == NotSet && handlers == []
    {
      this.name, this.rootLevel := name, rootLevel;
      level, handlers := NotSet, [];
    }

    /**
     * `get_logger` / `__create_logger` on the logger named after `logFile`:
     * attaches a file, a stream and a database handler (on every call), then
     * sets the level the name selects.
     */
    method GetLogger(logFile: string, logLevel: string)
      requires name == logFile
      modifies this
      ensures handlers == old(handlers) + FactoryHandlers(logFile)
      ensures CountDatabase(handlers) == CountDatabase(old(handlers)) + 1
      ensures level == SelectedLevel(logLevel)
    {
      level := NotSet;
      handlers := handlers + [FileHandler(logFile, LOG_FORMAT)];
      handlers := handlers + [StreamHandler(LOG_FORMAT)];
      handlers := handlers + [DatabaseHandler];
      assert handlers == old(handlers) + FactoryHandlers(logFile);
      CountDatabaseAppend(old(handlers), logFile);
      if logLevel == "INFO" {
        level := Info;
      } else if logLevel == "ERROR" {
        level := Error;
      } else if logLevel == "DEBUG" {
        level := Debug;
      } else {
        level := NotSet;
      }
    }

    /** `getEffectiveLevel`: the logger's own level, or the root's when it is NOTSET. */
    function EffectiveLevel(): (l: Level)
      reads this
      ensures level != NotSet ==> l == level
      ensures level == NotSet ==> l == rootLevel
    {
      if level != NotSet then level else rootLevel
    }

    /** `isEnabledFor`. */
    predicate IsEnabledFor(l: Level)
      reads this
    {
      l.Number() >= EffectiveLevel().Number()
    }

    /** What logging `message` at level `l` does to the saved `records`: their new value and the raised error, if any. */
    function Emit(l: Level, message: string, records: seq<LogRecord>, now: nat): (r: (seq<LogRecord>, Option<string>))
      reads this
      ensures records <= r.0
      ensures r.1.Some? ==> r.0 == records
      ensures !IsEnabledFor(l) ==> r == (records, None)
    {
      Emitted(IsEnabledFor(l), CountDatabase(handlers), records, name, l.Name(), message, now)
    }

    /**
     * `logger.log(l, message)`: if the level is enabled, each handler in turn
     * handles the record; the database handler saves it, and a save that
     * fails raises out of the call, so the remaining handlers do not run. The
     * ValidationError message of the failed save is returned.
     */
    method Log(l: Level, message: string, now: nat, store: LogStore) returns (failure: Option<string>)
      requires store.Valid()
      modifies store
      ensures store.Valid()
      ensures (store.records, failure) == Emit(l, message, old(store.records), now)
    {
      failure := None;
      if IsEnabledFor(l) {
        failure := Dispatch(handlers, name, l.Name(), message, now, store);
      }
    }
  }

  /**
   * The handlers of one record, in order: the database handlers save it until
   * one save fails and raises.
   */
  method Dispatch(hs: seq<Handler>, logFile: string, levelName: string, message: string, now: nat, store: LogStore)
    returns (failure: Option<string>)
    requires store.Valid()
    modifies store
    ensures store.Valid()
    ensures (store.records, failure) == Emitted(true, CountDatabase(hs), old(store.records), logFile, levelName, message, now)
  {
    var i := 0;
    while i < |hs|
      invariant 0 <= i <= |hs|
      invariant store.Valid()
      invariant CountDatabase(hs[..i]) == 0 || LogErrors(levelName, message) == []
      invariant store.records == old(store.records) + Copies(CountDatabase(hs[..i]), |old(store.records)|, logFile, levelName, message, now)
    {
      ghost var k := CountDatabase(hs[..i]);
      assert hs[..i + 1][..i] == hs[..i];
      if hs[i].DatabaseHandler? {
        var saved := store.CreateLog(logFile, levelName, message, now);
        if saved.Failure? {
          CountPrefix(hs, i + 1);
          return Some(saved.error);
        }
        assert Copies(k + 1, |old(store.records)|, logFile, levelName, message, now)
            == Copies(k, |old(store.records)|, logFile, levelName, message, now) + [saved.value];
      }
      i := i + 1;
    }
    assert hs[..i] == hs;
    failure := None;
  }

  /** The logger the application builds at start-up: `get_logger('logging/py.log', 'INFO')`. */
  const APP_LOG_FILE := "logging/py.log"

  /**
   * The application's logger on a fresh registry: one database handler, level
   * INFO, so INFO and ERROR records reach the store and DEBUG ones do not,
   * whatever the root logger's level.
   */
  method AppLogger(rootLevel: Level) returns (logger: Logger)
    ensures fresh(logger)
    ensures logger.name == APP_LOG_FILE && logger.level == Info
    ensures CountDatabase(logger.handlers) == 1
    ensures logger.IsEnabledFor(Info) && logger.IsEnabledFor(Error) && !logger.IsEnabledFor(Debug)
  {
    logger := new Logger(APP_LOG_FILE, rootLevel);
    logger.GetLogger(APP_LOG_FILE, "INFO");
  }
}
