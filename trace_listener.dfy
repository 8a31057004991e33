/**
 * A trace listener for console programs: each trace event becomes exactly one
 * line on the standard error stream. Information and Verbose events are shown
 * as they are, Start and Stop events are framed by an arrow whose shaft is as
 * long as the logical-operation nesting depth, and every other event kind is
 * tagged with its name in square brackets.
 */
module TraceListener {

  /** The kinds of trace event, with the names the runtime gives them. */
  datatype EventKind =
    | Critical | Error | Warning | Information | Verbose
    | Start | Stop | Suspend | Resume | Transfer

  /** A message as passed in by a caller: `None` stands for a null reference. */
  datatype Option<T> = None | Some(value: T)

  /** The one failure formatting can meet: taking the first character of an empty Stop message. */
  datatype FormatError = SubstringOutOfRange

  datatype Result<T> = Ok(value: T) | Err(error: FormatError)

  /** The name an event kind prints as. */
  function KindName(kind: EventKind): string
  {
    match kind
    case Critical => "Critical"
    case Error => "Error"
    case Warning => "Warning"
    case Information => "Information"
    case Verbose => "Verbose"
    case Start => "Start"
    case Stop => "Stop"
    case Suspend => "Suspend"
    case Resume => "Resume"
    case Transfer => "Transfer"
  }

  /** Event kinds whose lines carry a bracketed name tag. */
  predicate IsTagged(kind: EventKind)
  {
    !(kind.Information? || kind.Verbose? || kind.Start? || kind.Stop?)
  }

  /** The message the formatter works on: a null message counts as empty. */
  function Normalize(message: Option<string>): (m: string)
    ensures message.Some? ==> m == message.value
    ensures message.None? ==> m == ""
  {
    match message
    case None => ""
    case Some(s) => s
  }

  /** A run of `n` dashes, the shaft of the Start/Stop arrow. */
  function Dashes(n: nat): (r: string)
    ensures |r| == n
    ensures forall i :: 0 <= i < n ==> r[i] == '-'
  {
    if n == 0 then "" else ['-'] + Dashes(n - 1)
  }

  /** Invariant lower-casing of one character, restricted to ASCII letters. */
  function ToLower(c: char): (l: char)
    ensures 'A' <= c <= 'Z' ==> 'a' <= l <= 'z' && l as int == c as int + 32
    ensures !('A' <= c <= 'Z') ==> l == c
  {
    if 'A' <= c <= 'Z' then (c as int + 32) as char else c
  }

  /** The prefix of a tagged event: its kind name between brackets, then a space. */
  function EventTypePrefix(kind: EventKind): (p: string)
    ensures |p| == |KindName(kind)| + 3
    ensures p[0] == '[' && p[1..|p| - 2] == KindName(kind) && p[|p| - 2..] == "] "
  {
    "[" + KindName(kind) + "] "
  }

  /** The prefix of a Start or Stop event: one dash per open logical operation, then "> ". */
  function LogicalOperationPrefix(depth: nat): (p: string)
    ensures |p| == depth + 2
    ensures forall i :: 0 <= i < depth ==> p[i] == '-'
    ensures p[depth..] == "> "
  {
    Dashes(depth) + "> "
  }

  /**
   * The text of a Stop event: "Finished " and then the message with its first
   * character lower-cased. An empty message has no first character, which is
   * the error `SubstringOutOfRange`.
   */
  function FinishedMessage(message: string): (r: Result<string>)
    ensures r.Err? <==> message == ""
    ensures r.Ok? ==> |r.value| == |message| + 9
    ensures r.Ok? ==> r.value[..9] == "Finished "
    ensures r.Ok? ==> r.value[9] == ToLower(message[0]) && r.value[10..] == message[1..]
  {
    if message == "" then Err(SubstringOutOfRange)
    else Ok("Finished " + [ToLower(message[0])] + message[1..])
  }

  /**
   * The line written for an event of kind `kind` with message `message`
   * while `depth` logical operations are open.
   */
  function Format(kind: EventKind, message: Option<string>, depth: nat): (r: Result<string>)
    // only an empty (or null) Stop message fails
    ensures r.Err? <==> kind == Stop && Normalize(message) == ""
    // Information and Verbose: the message alone
    ensures kind == Information || kind == Verbose ==> r == Ok(Normalize(message))
    // Start and Stop: depth dashes, "> ", then the (rewritten) message
    ensures (kind == Start || kind == Stop) && r.Ok? ==>
      |r.value| >= depth + 2 &&
      (forall i :: 0 <= i < depth ==> r.value[i] == '-') &&
      r.value[depth..depth + 2] == "> "
    ensures kind == Start ==> r.Ok? && r.value[depth + 2..] == Normalize(message)
    ensures kind == Stop && r.Ok? ==> r.value[depth + 2..] == FinishedMessage(Normalize(message)).value
    // every other kind: the bracketed kind name, a space, then the message
    ensures IsTagged(kind) ==>
      r.Ok? && |r.value| == |KindName(kind)| + 3 + |Normalize(message)| &&
      r.value[..|KindName(kind)| + 3] == "[" + KindName(kind) + "] " &&
      r.value[|KindName(kind)| + 3..] == Normalize(message)
  {
    var m := Normalize(message);
    match kind
    case Information | Verbose => Ok(m)
    case Stop =>
      (match FinishedMessage(m)
       case Err(e) => Err(e)
       case Ok(finished) => Ok(LogicalOperationPrefix(depth) + finished))
    case Start => Ok(LogicalOperationPrefix(depth) + m)
    case _ => Ok(EventTypePrefix(kind) + m)
  }

  /** A null message is formatted exactly as the empty string is, for every kind. */
  lemma NullFormatsAsEmpty(kind: EventKind, depth: nat)
    ensures Format(kind, None, depth) == Format(kind, Some(""), depth)
  {
  }

  /** The original message of every event kind except Stop ends the line it is written on. */
  lemma MessageEndsLine(kind: EventKind, message: Option<string>, depth: nat)
    requires kind != Stop
    ensures Format(kind, message, depth).Ok?
    ensures var line := Format(kind, message, depth).value;
      |Normalize(message)| <= |line| && line[|line| - |Normalize(message)|..] == Normalize(message)
  {
  }

  /** The number of dashes a line starts with. */
  function LeadingDashes(s: string): (n: nat)
    ensures n <= |s|
  {
    if s != "" && s[0] == '-' then 1 + LeadingDashes(s[1..]) else 0
  }

  lemma {:induction false} LeadingDashesOfPrefix(depth: nat, rest: string)
    requires rest == "" || rest[0] != '-'
    ensures LeadingDashes(Dashes(depth) + rest) == depth
  {
    if depth > 0 {
      var s := Dashes(depth) + rest;
      assert s[1..] == Dashes(depth - 1) + rest;
      LeadingDashesOfPrefix(depth - 1, rest);
    }
  }

  /** The nesting depth can be read back from any Start or Stop line: it is its count of leading dashes. */
  lemma DepthRecoveredFromLine(kind: EventKind, message: Option<string>, depth: nat)
    requires kind == Start || kind == Stop
    requires Format(kind, message, depth).Ok?
    ensures LeadingDashes(Format(kind, message, depth).value) == depth
  {
    var line := Format(kind, message, depth).value;
    var rest := line[depth..];
    assert line == Dashes(depth) + rest;
    LeadingDashesOfPrefix(depth, rest);
  }

  /** The index of the first occurrence of `c` in `s`, or `|s|` when there is none. */
  function IndexOf(s: string, c: char): (i: nat)
    ensures i <= |s|
    ensures forall j :: 0 <= j < i ==> s[j] != c
    ensures i < |s| ==> s[i] == c
  {
    if s == "" then 0 else if s[0] == c then 0 else 1 + IndexOf(s[1..], c)
  }

  /**
   * Reading a tagged line back: the text between the opening bracket and the
   * first closing bracket is the kind name, and what follows "] " is the message.
   */
  function ParseTagged(line: string): (r: Option<(string, string)>)
    ensures r.Some? ==> line == "[" + r.value.0 + "] " + r.value.1
  {
    if line == "" || line[0] != '[' then None
    else
      var body := line[1..];
      var j := IndexOf(body, ']');
      if j + 1 < |body| && body[j + 1] == ' ' then
        assert line == "[" + body[..j] + "] " + body[j + 2..];
        Some((body[..j], body[j + 2..]))
      else None
  }

  /** Finds the event kind a name belongs to. */
  function KindNamed(name: string): (r: Option<EventKind>)
    ensures r.Some? ==> KindName(r.value) == name
  {
    if name == "Critical" then Some(Critical)
    else if name == "Error" then Some(Error)
    else if name == "Warning" then Some(Warning)
    else if name == "Information" then Some(Information)
    else if name == "Verbose" then Some(Verbose)
    else if name == "Start" then Some(Start)
    else if name == "Stop" then Some(Stop)
    else if name == "Suspend" then Some(Suspend)
    else if name == "Resume" then Some(Resume)
    else if name == "Transfer" then Some(Transfer)
    else None
  }

  /** Every kind is named uniquely, so the name identifies the kind. */
  lemma KindNamedInverts(kind: EventKind)
    ensures KindNamed(KindName(kind)) == Some(kind)
  {
  }

  /** No kind name contains a closing bracket. */
  lemma KindNameUnbracketed(kind: EventKind)
    ensures forall j :: 0 <= j < |KindName(kind)| ==> KindName(kind)[j] != ']'
  {
  }

  lemma {:induction false} IndexOfAfterName(name: string, rest: string)
    requires forall j :: 0 <= j < |name| ==> name[j] != ']'
    requires rest != "" && rest[0] == ']'
    ensures IndexOf(name + rest, ']') == |name|
  {
    if name != "" {
      assert (name + rest)[1..] == name[1..] + rest;
      IndexOfAfterName(name[1..], rest);
    }
  }

  /**
   * Parsing undoes tagging: for a name without a closing bracket, the tagged
   * text parses back to that name and the message, whatever the message holds.
   */
  lemma ParseTaggedInverts(name: string, m: string)
    requires forall j :: 0 <= j < |name| ==> name[j] != ']'
    ensures ParseTagged("[" + name + "] " + m) == Some((name, m))
  {
    var line := "[" + name + "] " + m;
    assert line[1..] == name + ("] " + m);
    IndexOfAfterName(name, "] " + m);
    assert line[1..][..|name|] == name;
    assert line[1..][|name| + 2..] == m;
  }

  /**
   * A tagged line can be read back: parsing it yields the kind's name (and so
   * the kind) and the original message, whatever the message contains.
   */
  lemma TaggedLineRoundTrip(kind: EventKind, message: Option<string>, depth: nat)
    requires IsTagged(kind)
    ensures Format(kind, message, depth).Ok?
    ensures ParseTagged(Format(kind, message, depth).value) == Some((KindName(kind), Normalize(message)))
    ensures KindNamed(ParseTagged(Format(kind, message, depth).value).value.0) == Some(kind)
  {
    var m := Normalize(message);
    var name := KindName(kind);
    var line := Format(kind, message, depth).value;
    assert line == line[..|name| + 3] + line[|name| + 3..];
    KindNameUnbracketed(kind);
    ParseTaggedInverts(name, m);
    KindNamedInverts(kind);
  }

  /**
   * The listener, writing to the process's standard error stream. The stream
   * is kept as the lines completed so far and the text written since the last
   * line break.
   */
  class ConsoleApplicationTraceListener {
    var lines: seq<string>
    var pending: string

    constructor ()
      ensures lines == [] && pending == ""
    {
      lines := [];
      pending := "";
    }

    /** Writes `message` and a line break: one more completed line. */
    method WriteLine(message: string)
      modifies this
      ensures lines == old(lines) + [old(pending) + message]
      ensures pending == ""
    {
      lines := lines + [pending + message];
      pending := "";
    }

    /** Writes `message` without a line break. */
    method Write(message: string)
      modifies this
      ensures lines == old(lines)
      ensures pending == old(pending) + message
    {
      pending := pending + message;
    }

    /**
     * Handles one trace event: exactly one line is written, the formatted
     * one; when formatting fails nothing is written and the error is returned.
     */
    method TraceEvent(kind: EventKind, message: Option<string>, depth: nat) returns (outcome: Result<()>)
      modifies this
      ensures outcome.Err? <==> Format(kind, message, depth).Err?
      ensures outcome.Ok? ==>
        lines == old(lines) + [old(pending) + Format(kind, message, depth).value] && pending == ""
      ensures outcome.Err? ==> lines == old(lines) && pending == old(pending)
    {
      var m := Normalize(message);
      var prefix := "";
      match kind {
        case Information =>
        case Verbose =>
        case Stop =>
          if m == "" {
            return Err(SubstringOutOfRange);
          }
          assert FinishedMessage(m) == Ok("Finished " + [ToLower(m[0])] + m[1..]);
          m := "Finished " + [ToLower(m[0])] + m[1..];
          prefix := LogicalOperationPrefix(depth);
        case Start =>
          prefix := LogicalOperationPrefix(depth);
        case _ =>
          prefix := EventTypePrefix(kind);
      }
      assert prefix + m == Format(kind, message, depth).value;
      WriteLine(prefix + m);
      outcome := Ok(());
    }
  }
}
