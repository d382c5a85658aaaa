/**
 * The log-record document (`LoggerModel`) and the store of saved log records:
 * a record is saved only if its level is one of the four allowed names and its
 * message is at most 512 characters long.
 */
module LogModels {
  import opened Wrappers
  import opened Common

  /** The document class name the document layer puts in its validation messages. */
  const LOG_CLASS := "LoggerModel"

  /** The allowed values of `info_type`. */
  const LEVEL_CHOICES := ["INFO", "ERROR", "WARNING", "CRITICAL"]

  const MAX_MESSAGE: nat := 512

  /** What a field with choices says of a value that is not one of them. */
  function ChoiceError(choices: seq<string>): string
  {
    "Value must be one of " + PyList(choices)
  }

  /** A saved log record; `dateAndTime` is a timestamp in seconds. */
  datatype LogRecord = LogRecord(id: nat, logFile: string, infoType: string, message: string, dateAndTime: nat)

  /** The field constraints every saved record satisfies. */
  predicate Storable(r: LogRecord)
  {
    r.infoType in LEVEL_CHOICES && |r.message| <= MAX_MESSAGE
  }

  /** What `save()` reports for a new record, field by field in declaration order. */
  function LogErrors(infoType: string, message: string): (errors: seq<(string, string)>)
    ensures errors == [] <==> infoType in LEVEL_CHOICES && |message| <= MAX_MESSAGE
    ensures |errors| <= 2
    ensures forall e :: e in errors ==> e == ("info_type", ChoiceError(LEVEL_CHOICES)) || e == ("message", STRING_TOO_LONG)
  {
    (if infoType in LEVEL_CHOICES then [] else [("info_type", ChoiceError(LEVEL_CHOICES))])
    + (if |message| > MAX_MESSAGE then [("message", STRING_TOO_LONG)] else [])
  }

  /** An allowed level with an over-long message is refused naming only the message. */
  lemma LongMessageRefused(infoType: string, message: string)
    requires infoType in LEVEL_CHOICES && |message| > MAX_MESSAGE
    ensures SaveErrorMessage(LOG_CLASS, LogErrors(infoType, message))
         == "ValidationError (" + LOG_CLASS + ":None) (" + STRING_TOO_LONG + ": ['message'])"
  {
    assert LogErrors(infoType, message) == [("message", STRING_TOO_LONG)];
    SaveErrorOne(LOG_CLASS, "message", STRING_TOO_LONG);
  }

  /** `to_json`: the record's fields under the keys the source uses (note `log_type` and `data_and_time`). */
  function ToJson(r: LogRecord): (j: Json)
    ensures j.JObj? && JsonKeys(j.members) == ["log_id", "log_file", "log_type", "message", "data_and_time"]
    ensures j.members[2].1 == JStr(r.infoType) && j.members[3].1 == JStr(r.message)
  {
    JObj([("log_id", JStr(DecimalText(r.id))), ("log_file", JStr(r.logFile)), ("log_type", JStr(r.infoType)),
          ("message", JStr(r.message)), ("data_and_time", JNum(r.dateAndTime))])
  }

  /** The saved records: ids are their positions (insertion order) and every record is storable. */
  ghost predicate RecordsInvariant(records: seq<LogRecord>)
  {
    forall i :: 0 <= i < |records| ==> records[i].id == i && Storable(records[i])
  }

  class LogStore {
    var records: seq<LogRecord>

    ghost predicate Valid()
      reads this
    {
      RecordsInvariant(records)
    }

    constructor ()
      ensures Valid() && records == []
    {
      records := [];
    }

    /**
     * `create_log`: construct and save. On success exactly one record is
     * appended; otherwise the ValidationError's message is returned and the
     * store is unchanged.
     */
    method CreateLog(logFile: string, infoType: string, message: string, now: nat) returns (r: Result<LogRecord, string>)
      requires Valid()
      modifies this
      ensures Valid()
      ensures r.Success? <==> LogErrors(infoType, message) == []
      ensures r.Success? ==> r.value == LogRecord(|old(records)|, logFile, infoType, message, now)
      ensures r.Success? ==> records == old(records) + [r.value]
      ensures r.Failure? ==> r.error == SaveErrorMessage(LOG_CLASS, LogErrors(infoType, message))
      ensures r.Failure? ==> records == old(records)
    {
      var errors := LogErrors(infoType, message);
      if errors != [] {
        return Failure(SaveErrorMessage(LOG_CLASS, errors));
      }
      var record := LogRecord(|records|, logFile, infoType, message, now);
      records := records + [record];
      r := Success(record);
    }
  }
}
