/**
 * The command log (`Logger`): at most one log file is open at a time; while
 * one is open every logged command is written as "> command" followed by its
 * response. The file system is reduced to the set of existing files that
 * cannot be written, and the text of the log file currently (or last) open.
 */
module Logging {
  import opened Base

  class Logger {
    /** The open log file; Java's `logWriter != null` exactly when Some. */
    var logFile: Option<string>
    /** The lines written to the log file most recently opened. */
    var lines: seq<string>
    /** Existing files that cannot be written. */
    var readOnly: set<string>

    constructor (readOnly: set<string>)
      ensures logFile.None? && lines == [] && this.readOnly == readOnly
    {
      logFile := None;
      lines := [];
      this.readOnly := readOnly;
    }

    predicate IsLoggingEnabled()
      reads this
    {
      logFile.Some?
    }

    method StopLogging() returns (msg: string)
      modifies this
      ensures msg == if old(logFile).Some? then "STOPPED LOGGING" else "LOGGING was not enabled"
      ensures logFile.None?
      ensures lines == old(lines) && readOnly == old(readOnly)
    {
      if logFile.Some? {
        logFile := None;
        return "STOPPED LOGGING";
      }
      return "LOGGING was not enabled";
    }

    /** Closes any open log first, so a refused file leaves logging off. */
    method StartLogging(filename: string) returns (msg: string)
      modifies this
      ensures filename in readOnly ==>
        && msg == "Error: File exists but cannot be written: " + filename
        && logFile.None? && lines == old(lines)
      ensures filename !in readOnly ==>
        && msg == "Started logging to " + filename
        && logFile == Some(filename) && lines == []
      ensures readOnly == old(readOnly)
    {
      if logFile.Some? {
        var _ := StopLogging();
      }
      if filename in readOnly {
        return "Error: File exists but cannot be written: " + filename;
      }
      logFile := Some(filename);
      lines := [];
      return "Started logging to " + filename;
    }

    method Log(command: string, response: string)
      modifies this
      ensures lines == if old(logFile).Some? then old(lines) + ["> " + command, response] else old(lines)
      ensures logFile == old(logFile) && readOnly == old(readOnly)
    {
      if logFile.Some? {
        lines := lines + ["> " + command, response];
      }
    }
  }
}
