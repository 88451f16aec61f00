/**
 * The logger: the two switch lookups from a log level to its name and to its
 * ANSI colour parameters, and the line that `Log` prints.
 *
 * `LogLevel` is an `enum class` stored in a `std::uint8_t`, so a level is
 * modelled by its byte code; the six enumerators are codes 0 to 5 and the
 * `default` branches answer every other byte.
 */
module Logger {
  import opened Wrappers

  newtype uint8 = x: int | 0 <= x < 256

  /** The six enumerators, in declaration order. */
  datatype LogLevel = FATAL | ERROR | WARNING | INFO | DEBUG | TRACE

  /** The underlying value of each enumerator. */
  function Code(level: LogLevel): (code: uint8) {
    match level
    case FATAL => 0
    case ERROR => 1
    case WARNING => 2
    case INFO => 3
    case DEBUG => 4
    case TRACE => 5
  }

  /** The enumerator a byte stands for, if any. */
  function LevelOfCode(code: uint8): (r: Option<LogLevel>)
    ensures r.Some? <==> code < 6
    ensures r.Some? ==> Code(r.value) == code
  {
    if code == 0 then Some(FATAL)
    else if code == 1 then Some(ERROR)
    else if code == 2 then Some(WARNING)
    else if code == 3 then Some(INFO)
    else if code == 4 then Some(DEBUG)
    else if code == 5 then Some(TRACE)
    else None
  }

  /** `getStringForLogLevel`. The default branch is taken exactly for bytes that are no enumerator. */
  function StringForLogLevel(level: uint8): (name: string)
    ensures name == "LOG" <==> level >= 6
    ensures |name| > 0 && ' ' !in name
  {
    if level == 0 then "FATAL"
    else if level == 1 then "ERROR"
    else if level == 2 then "WARNING"
    else if level == 3 then "INFO"
    else if level == 4 then "DEBUG"
    else if level == 5 then "TRACE"
    else "LOG"
  }

  /** `getColorForLogLevel`. The default branch is taken exactly for bytes that are no enumerator. */
  function ColorForLogLevel(level: uint8): (color: string)
    ensures color == "47:30;" <==> level >= 6
    ensures |color| == 6
  {
    if level <= 1 then "41;30;"
    else if level == 2 then "43;30;"
    else if level == 3 then "47;30;"
    else if level == 4 then "44;30;"
    else if level == 5 then "45;30;"
    else "47:30;"
  }

  /** The escape character that starts an ANSI control sequence. */
  const Esc: char := 27 as char

  /** Everything `Log` prints before the message. */
  function Header(level: uint8): (h: string) {
    [Esc] + "[" + ColorForLogLevel(level) + "1m " + StringForLogLevel(level) + " " + [Esc] + "[0m "
  }

  /** The line `Log(level, message)` prints: `ESC[<color>1m <name> ESC[0m <message>` and a newline. */
  function LogLine(level: uint8, message: string): (line: string)
    ensures 12 < |Header(level)| < |line| && line[..|Header(level)|] == Header(level) && line[|line| - 1] == '\n'
  {
    Header(level) + message + "\n"
  }

  /** The level a header announces, read from its colour and the first letter of its name. */
  function LevelOfHeader(color: string, initial: char): (r: Option<LogLevel>) {
    if color == "41;30;" then
      (if initial == 'F' then Some(FATAL) else if initial == 'E' then Some(ERROR) else None)
    else if color == "43;30;" then Some(WARNING)
    else if color == "47;30;" then Some(INFO)
    else if color == "44;30;" then Some(DEBUG)
    else if color == "45;30;" then Some(TRACE)
    else None
  }

  /** Recovers the level and the message from a printed line. */
  function ParseLogLine(line: string): (r: Option<(LogLevel, string)>) {
    if |line| < 12 || line[|line| - 1] != '\n' then None
    else match LevelOfHeader(line[2..8], line[11])
      case None => None
      case Some(level) =>
        var h := Header(Code(level));
        if |h| < |line| && line[..|h|] == h then Some((level, line[|h|..|line| - 1])) else None
  }

  // ---------------------------------------------------------------------------
  // Properties
  // ---------------------------------------------------------------------------

  /** Every enumerator is stored as a code below 6 and is recovered from it. */
  lemma CodeRoundTrip(level: LogLevel)
    ensures Code(level) < 6 && LevelOfCode(Code(level)) == Some(level)
  {
  }

  /** FATAL and ERROR share their colour; every other pair of levels has distinct colours. */
  lemma ColorsShared(a: LogLevel, b: LogLevel)
    ensures ColorForLogLevel(Code(a)) == ColorForLogLevel(Code(b))
            <==> a == b || (a in {FATAL, ERROR} && b in {FATAL, ERROR})
    ensures ColorForLogLevel(Code(FATAL)) == "41;30;"
  {
  }

  /** The six level names are pairwise distinct. */
  lemma NamesDistinct(a: LogLevel, b: LogLevel)
    ensures StringForLogLevel(Code(a)) == StringForLogLevel(Code(b)) <==> a == b
  {
  }

  /** Where the colour and the first letter of the name sit in a header. */
  lemma HeaderLayout(level: uint8, message: string)
    ensures var line := LogLine(level, message);
      |line| >= 12 &&
      line[2..8] == ColorForLogLevel(level) &&
      line[11] == StringForLogLevel(level)[0] &&
      line[..|Header(level)|] == Header(level) &&
      line[|Header(level)|..|line| - 1] == message &&
      line[|line| - 1] == '\n'
  {
    var color, name := ColorForLogLevel(level), StringForLogLevel(level);
    var line := LogLine(level, message);
    assert line == ([Esc] + "[") + color + ("1m " + name + " " + [Esc] + "[0m " + message + "\n");
  }

  /** Parsing a printed line gives back the level and the message. */
  lemma {:induction false} ParseLogLineRoundTrip(level: LogLevel, message: string)
    ensures ParseLogLine(LogLine(Code(level), message)) == Some((level, message))
  {
    HeaderLayout(Code(level), message);
    assert LevelOfHeader(ColorForLogLevel(Code(level)), StringForLogLevel(Code(level))[0]) == Some(level);
  }

  /** Whatever parses was printed by `Log` with that level and message. */
  lemma {:induction false} ParseLogLineSound(line: string)
    ensures ParseLogLine(line).Some? ==>
      var (level, message) := ParseLogLine(line).value;
      line == LogLine(Code(level), message)
  {
    if ParseLogLine(line).Some? {
      var (level, message) := ParseLogLine(line).value;
      var h := Header(Code(level));
      assert line == line[..|h|] + line[|h|..|line| - 1] + [line[|line| - 1]];
    }
  }
}
