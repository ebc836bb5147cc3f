/** The `N/log` module as an injected trace of entries. */
module Logging {
  import opened Json

  datatype Level = Debug | Error

  /** A log entry's details: a plain message, or the JSON text of a value. */
  datatype Detail = Message(text: string) | Payload(json: Text)

  datatype Entry = Entry(level: Level, title: string, details: Detail)

  /** The log: entries appended in the order they are written. Logging never throws. */
  class Logger {
    var entries: seq<Entry>

    constructor ()
      ensures entries == []
    {
      entries := [];
    }

    /** `log.debug({ title, details })` */
    method Debug(title: string, details: Detail)
      modifies this
      ensures entries == old(entries) + [Entry(Level.Debug, title, details)]
    {
      entries := entries + [Entry(Level.Debug, title, details)];
    }

    /** `log.error({ title, details })` */
    method Error(title: string, details: Detail)
      modifies this
      ensures entries == old(entries) + [Entry(Level.Error, title, details)]
    {
      entries := entries + [Entry(Level.Error, title, details)];
    }
  }
}
