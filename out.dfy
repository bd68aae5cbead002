/**
 * The log printer: a message is printed, prefixed by "[NAME (ID: ID) ~ LEVEL]: ",
 * when its level is one the subject's log level lets through.
 */
module Out {
  import opened Wrappers
  import opened JavaText

  /** Log levels in declaration order; each one lets through itself and the levels before it, except NONE. */
  datatype LogLevel = NONE | ERROR | WARN | INFO | ALL

  function Ordinal(l: LogLevel): nat
  {
    match l
    case NONE => 0
    case ERROR => 1
    case WARN => 2
    case INFO => 3
    case ALL => 4
  }

  function LevelName(l: LogLevel): string
  {
    match l
    case NONE => "NONE"
    case ERROR => "ERROR"
    case WARN => "WARN"
    case INFO => "INFO"
    case ALL => "ALL"
  }

  /** The prefix "[NAME (ID: ID) ~ LEVEL]: " with name and id in upper case. */
  function Identifier(name: string, id: string, msgLevel: LogLevel): string
  {
    "[" + UpperCase(name) + " (ID: " + UpperCase(id) + ") ~ " + LevelName(msgLevel) + "]: "
  }

  /**
   * The string the switch has built when control leaves case `entry`: the switch is
   * entered at the subject's level and falls through ALL, INFO, WARN and ERROR,
   * appending the message in the one case equal to the message's level.
   */
  function FallThrough(entry: LogLevel, msgLevel: LogLevel, acc: string, out: string): string
    decreases Ordinal(entry)
  {
    match entry
    case NONE => acc
    case ERROR => if msgLevel == ERROR then acc + out else acc
    case WARN => FallThrough(ERROR, msgLevel, if msgLevel == WARN then acc + out else acc, out)
    case INFO => FallThrough(WARN, msgLevel, if msgLevel == INFO then acc + out else acc, out)
    case ALL => FallThrough(INFO, msgLevel, if msgLevel == ALL then acc + out else acc, out)
  }

  /**
   * print(name, id, out, logLevel, msgLevel): the line printed, if any. The check that
   * prints sits in the ERROR case, which every level but NONE falls into; it prints
   * when the switch appended something.
   */
  function Print(name: string, id: string, out: string, logLevel: LogLevel, msgLevel: LogLevel): Option<string>
  {
    var identifier := Identifier(name, id, msgLevel);
    if logLevel == NONE then None
    else
      var built := FallThrough(logLevel, msgLevel, identifier, out);
      if built != identifier then Some(built) else None
  }

  /** Whether a subject at `logLevel` lets through a message at `msgLevel`. */
  predicate Admits(logLevel: LogLevel, msgLevel: LogLevel)
  {
    msgLevel != NONE && Ordinal(msgLevel) <= Ordinal(logLevel)
  }

  /** The fall-through appends the message exactly once if the message level is among the cases passed, else never. */
  lemma {:induction false} FallThroughAppends(entry: LogLevel, msgLevel: LogLevel, acc: string, out: string)
    ensures FallThrough(entry, msgLevel, acc, out) == if Admits(entry, msgLevel) then acc + out else acc
    decreases Ordinal(entry)
  {
    match entry
    case NONE =>
    case ERROR =>
    case WARN => FallThroughAppends(ERROR, msgLevel, if msgLevel == WARN then acc + out else acc, out);
    case INFO => FallThroughAppends(WARN, msgLevel, if msgLevel == INFO then acc + out else acc, out);
    case ALL => FallThroughAppends(INFO, msgLevel, if msgLevel == ALL then acc + out else acc, out);
  }

  /** A line is printed exactly when the subject admits the message level and the message is not empty. */
  lemma PrintsIff(name: string, id: string, out: string, logLevel: LogLevel, msgLevel: LogLevel)
    ensures Print(name, id, out, logLevel, msgLevel).Some? <==> Admits(logLevel, msgLevel) && out != ""
    ensures Print(name, id, out, logLevel, msgLevel).Some? ==>
              Print(name, id, out, logLevel, msgLevel).value == Identifier(name, id, msgLevel) + out
  {
    var identifier := Identifier(name, id, msgLevel);
    FallThroughAppends(logLevel, msgLevel, identifier, out);
    if out != "" {
      assert |identifier + out| > |identifier|;
    } else {
      assert identifier + out == identifier;
    }
  }

  /** NONE silences a subject, and a NONE message is never printed. */
  lemma NoneIsSilent(name: string, id: string, out: string, level: LogLevel)
    ensures Print(name, id, out, NONE, level).None?
    ensures Print(name, id, out, level, NONE).None?
  {
    PrintsIff(name, id, out, level, NONE);
  }

  /** ALL prints every non-empty message that is not at level NONE. */
  lemma AllPrintsEverything(name: string, id: string, out: string, msgLevel: LogLevel)
    requires msgLevel != NONE && out != ""
    ensures Print(name, id, out, ALL, msgLevel) == Some(Identifier(name, id, msgLevel) + out)
  {
    PrintsIff(name, id, out, ALL, msgLevel);
  }

  /** Raising the subject's level never silences a message it printed. */
  lemma PrintMonotone(name: string, id: string, out: string, low: LogLevel, high: LogLevel, msgLevel: LogLevel)
    requires Ordinal(low) <= Ordinal(high)
    ensures Print(name, id, out, low, msgLevel).Some? ==> Print(name, id, out, high, msgLevel).Some?
  {
    PrintsIff(name, id, out, low, msgLevel);
    PrintsIff(name, id, out, high, msgLevel);
  }
}
