/** Console logging: the severity tags of nvrhi messages, the lines the
    device manager's `log::message` and the demo's message callback print,
    and the `Check` helper. Console output is modelled as the sequence of
    lines written. */
module Log {
  import opened Types

  /** nvrhi's message severities; `OutOfRange` stands for any other value
      the enumeration's underlying integer may hold. */
  datatype Severity = Info | Warning | Error | Fatal | OutOfRange(code: nat)

  /** The bracketed tag printed for a severity. */
  function SeverityString(s: Severity): string
  {
    match s
    case Info => "[INFO]"
    case Warning => "[WARNING]"
    case Error => "[ERROR]"
    case Fatal => "[### FATAL ERROR ###]"
    case OutOfRange(_) => "[unknown]"
  }

  /** The tags are bracketed, and distinct severities among the four named
      ones get distinct tags, so a tag identifies its severity. */
  lemma SeverityStringsDistinct(a: Severity, b: Severity)
    ensures |SeverityString(a)| >= 2 && SeverityString(a)[0] == '['
    ensures SeverityString(a)[|SeverityString(a)| - 1] == ']'
    ensures !a.OutOfRange? && !b.OutOfRange? && a != b ==> SeverityString(a) != SeverityString(b)
    ensures SeverityString(a) == "[unknown]" <==> a.OutOfRange?
  {
    if !a.OutOfRange? && !b.OutOfRange? && a != b {
      assert SeverityString(a)[1] != SeverityString(b)[1] || |SeverityString(a)| != |SeverityString(b)|;
    }
  }

  const Prefix: string := "NVRHI::"
  const FatalLine1: string := "Fatal error encountered, look above ^"
  const FatalLine2: string := "====================================="

  function FatalTrailer(s: Severity): seq<string>
  {
    if s == Fatal then [FatalLine1, FatalLine2] else []
  }

  /** `log::message` of the device manager: one tagged line, followed for a
      fatal message by two more lines pointing back at it. */
  function Message(s: Severity, text: string): (lines: seq<string>)
    ensures |lines| == if s == Fatal then 3 else 1
    ensures lines[0] == Prefix + SeverityString(s) + " " + text
    ensures lines[0][..|Prefix|] == Prefix
    ensures s == Fatal ==> lines[1..] == [FatalLine1, FatalLine2]
  {
    [Prefix + SeverityString(s) + " " + text] + FatalTrailer(s)
  }

  /** `log::error`: a message of severity Error. */
  function LogError(text: string): (lines: seq<string>)
    ensures lines == [Prefix + "[ERROR]" + " " + text]
  {
    Message(Error, text)
  }

  /** The demo's nvrhi message callback: the same tagged line as
      `log::message`, followed by an empty line, then the fatal trailer. */
  function CallbackMessage(s: Severity, text: string): (lines: seq<string>)
    ensures |lines| == if s == Fatal then 4 else 2
    ensures lines[0] == Message(s, text)[0] && lines[1] == ""
    ensures lines[2..] == Message(s, text)[1..]
  {
    [Prefix + SeverityString(s) + " " + text, ""] + FatalTrailer(s)
  }

  /** `Check(ptr, message)`: succeeds exactly when the pointer is non-null;
      a null pointer prints the message as a fatal error. */
  function Check<T>(ptr: Option<T>, message: string): (r: (bool, seq<string>))
    ensures r.0 <==> ptr.Some?
    ensures r.0 ==> r.1 == []
    ensures !r.0 ==> r.1 == ["FATAL ERROR: " + message]
  {
    match ptr
    case None => (false, ["FATAL ERROR: " + message])
    case Some(_) => (true, [])
  }
}
