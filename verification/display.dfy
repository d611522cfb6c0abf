/**
 * The command line shown for each configured command (cli/biu.js):
 * `[command].concat(args || [])`, every part that holds white space or a
 * double quote wrapped in double quotes with each inner `"` doubled, the
 * parts joined by single spaces. A parser for that text is given too, and it
 * recovers the parts from the display.
 */
module CommandDisplay {
  import opened Common

  /** The characters of JavaScript's `\s` class. */
  predicate IsSpace(c: char) {
    c == '\t' || c == '\n' || c == '\U{B}' || c == '\U{C}' || c == '\r' || c == ' '
    || c == '\U{A0}' || c == '\U{1680}' || ('\U{2000}' <= c <= '\U{200A}')
    || c == '\U{2028}' || c == '\U{2029}' || c == '\U{202F}' || c == '\U{205F}'
    || c == '\U{3000}' || c == '\U{FEFF}'
  }

  /** The test `/[\s"]/.test(part)`. */
  predicate NeedsQuotes(part: string) {
    exists i :: 0 <= i < |part| && (IsSpace(part[i]) || part[i] == '"')
  }

  function CountQuotes(s: string): nat {
    if s == [] then 0 else (if s[0] == '"' then 1 else 0) + CountQuotes(s[1..])
  }

  /** `part.replace(/"/g, '""')` */
  function DoubleQuotes(s: string): string {
    if s == [] then []
    else if s[0] == '"' then "\"\"" + DoubleQuotes(s[1..])
    else [s[0]] + DoubleQuotes(s[1..])
  }

  /** The mapping applied to each part. */
  function QuotePart(part: string): string {
    if NeedsQuotes(part) then "\"" + DoubleQuotes(part) + "\"" else part
  }

  function QuoteAll(parts: seq<string>): (r: seq<string>)
    ensures |r| == |parts|
    ensures forall i :: 0 <= i < |parts| ==> r[i] == QuotePart(parts[i])
  {
    if parts == [] then [] else [QuotePart(parts[0])] + QuoteAll(parts[1..])
  }

  /** `parts.join(' ')` */
  function JoinSpaces(parts: seq<string>): string {
    if parts == [] then ""
    else if |parts| == 1 then parts[0]
    else parts[0] + " " + JoinSpaces(parts[1..])
  }

  /** The parts of the display: the command, then its arguments (none when absent). */
  function Parts(command: string, args: Option<seq<string>>): (ps: seq<string>)
    ensures |ps| >= 1 && ps[0] == command && ps[1..] == args.GetOr([])
  {
    [command] + args.GetOr([])
  }

  /** The `display` text assigned to a command's options. */
  function Display(command: string, args: Option<seq<string>>): string {
    JoinSpaces(QuoteAll(Parts(command, args)))
  }

  /** One configured command; `display` is the field the start-up code assigns. */
  class CommandOptions {
    const command: string
    const args: Option<seq<string>>
    var display: string

    constructor (command: string, args: Option<seq<string>>)
      ensures this.command == command && this.args == args && display == ""
    {
      this.command := command;
      this.args := args;
      display := "";
    }
  }

  /** `commands.forEach(options => options.display = ...)` */
  method AssignDisplays(commands: seq<CommandOptions>)
    modifies set c | c in commands
    ensures forall i :: 0 <= i < |commands| ==>
      commands[i].display == Display(commands[i].command, commands[i].args)
  {
    for i := 0 to |commands|
      invariant forall j :: 0 <= j < i ==>
        commands[j].display == Display(commands[j].command, commands[j].args)
    {
      commands[i].display := Display(commands[i].command, commands[i].args);
    }
  }

  // ---------------------------------------------------------------------------
  // Properties of a single part

  lemma PlainPartUnchanged(part: string)
    requires !NeedsQuotes(part)
    ensures QuotePart(part) == part
  {
  }

  lemma {:induction false} DoubleQuotesLength(s: string)
    ensures |DoubleQuotes(s)| == |s| + CountQuotes(s)
  {
    if s != [] {
      DoubleQuotesLength(s[1..]);
    }
  }

  /** A quoted part is the part between quotes, one character longer per inner quote. */
  lemma QuotedPartShape(part: string)
    requires NeedsQuotes(part)
    ensures |QuotePart(part)| == |part| + 2 + CountQuotes(part)
    ensures QuotePart(part)[0] == '"' && QuotePart(part)[|QuotePart(part)| - 1] == '"'
  {
    DoubleQuotesLength(part);
  }

  /** Doubling quotes never leaves a lone quote: quotes come in adjacent pairs. */
  function UndoubleQuotes(s: string): string
    decreases |s|
  {
    if s == [] then []
    else if |s| >= 2 && s[0] == '"' && s[1] == '"' then "\"" + UndoubleQuotes(s[2..])
    else [s[0]] + UndoubleQuotes(s[1..])
  }

  lemma {:induction false} UndoubleDoubleQuotes(s: string)
    ensures UndoubleQuotes(DoubleQuotes(s)) == s
  {
    if s != [] {
      UndoubleDoubleQuotes(s[1..]);
      if s[0] == '"' {
        assert ("\"\"" + DoubleQuotes(s[1..]))[2..] == DoubleQuotes(s[1..]);
      } else {
        assert ([s[0]] + DoubleQuotes(s[1..]))[1..] == DoubleQuotes(s[1..]);
      }
    }
  }

  // ---------------------------------------------------------------------------
  // Parsing the display back into parts

  /** One part read off the front of a display: the part, the text after the space that
      ends it, and whether such a space was found. */
  datatype Token = Token(part: string, rest: string, more: bool)

  function Extend(prefix: string, t: Token): Token {
    Token(prefix + t.part, t.rest, t.more)
  }

  /** Reads an unquoted part up to the next space. */
  function ReadPlain(s: string): (t: Token)
    ensures t.more ==> |t.rest| < |s|
  {
    if s == [] then Token("", "", false)
    else if s[0] == ' ' then Token("", s[1..], true)
    else Extend([s[0]], ReadPlain(s[1..]))
  }

  /** Reads the inside of a quoted part (after its opening quote) up to its closing quote. */
  function ReadQuoted(s: string): (t: Token)
    ensures t.more ==> |t.rest| < |s|
    decreases |s|
  {
    if s == [] then Token("", "", false)
    else if s[0] == '"' then
      if |s| >= 2 && s[1] == '"' then Extend("\"", ReadQuoted(s[2..]))
      else if |s| >= 2 && s[1] == ' ' then Token("", s[2..], true)
      else Token("", s[1..], false)
    else Extend([s[0]], ReadQuoted(s[1..]))
  }

  function ReadPart(s: string): (t: Token)
    ensures t.more ==> |t.rest| < |s|
  {
    if |s| > 0 && s[0] == '"' then ReadQuoted(s[1..]) else ReadPlain(s)
  }

  /** Splits a display into its parts. */
  function ParseDisplay(s: string): seq<string>
    decreases |s|
  {
    var t := ReadPart(s);
    if t.more then [t.part] + ParseDisplay(t.rest) else [t.part]
  }

  lemma {:induction false} ReadPlainAlone(p: string)
    requires forall i :: 0 <= i < |p| ==> p[i] != ' '
    ensures ReadPlain(p) == Token(p, "", false)
  {
    if p != [] {
      ReadPlainAlone(p[1..]);
      assert [p[0]] + p[1..] == p;
    }
  }

  lemma {:induction false} ReadPlainPart(p: string, rest: string)
    requires forall i :: 0 <= i < |p| ==> p[i] != ' '
    ensures ReadPlain(p + " " + rest) == Token(p, rest, true)
  {
    if p != [] {
      ReadPlainPart(p[1..], rest);
      assert (p + " " + rest)[1..] == p[1..] + " " + rest;
      assert [p[0]] + p[1..] == p;
    } else {
      assert (p + " " + rest)[1..] == rest;
    }
  }

  lemma ReadQuotedChar(c: char, s: string)
    requires c != '"'
    ensures ReadQuoted([c] + s) == Extend([c], ReadQuoted(s))
  {
    assert ([c] + s)[1..] == s;
  }

  lemma ReadQuotedPair(s: string)
    ensures ReadQuoted("\"\"" + s) == Extend("\"", ReadQuoted(s))
  {
    assert ("\"\"" + s)[2..] == s;
  }

  lemma DoubleQuotesCons(p: string, t: string)
    requires p != []
    ensures p[0] == '"' ==> DoubleQuotes(p) + t == "\"\"" + (DoubleQuotes(p[1..]) + t)
    ensures p[0] != '"' ==> DoubleQuotes(p) + t == [p[0]] + (DoubleQuotes(p[1..]) + t)
  {
    var head := if p[0] == '"' then "\"\"" else [p[0]];
    assert DoubleQuotes(p) == head + DoubleQuotes(p[1..]);
    AppendAssoc(head, DoubleQuotes(p[1..]), t);
  }

  /** Reading a doubled-quote text stops only at the first lone quote that follows it. */
  lemma {:induction false} ReadQuotedPrefix(p: string, t: string)
    requires |t| >= 1 && t[0] == '"' && (|t| == 1 || t[1] != '"')
    ensures ReadQuoted(DoubleQuotes(p) + t) == Extend(p, ReadQuoted(t))
  {
    var r := ReadQuoted(t);
    if p == [] {
      assert DoubleQuotes(p) + t == t;
      assert p + r.part == r.part;
    } else {
      var tail := DoubleQuotes(p[1..]) + t;
      ReadQuotedPrefix(p[1..], t);
      DoubleQuotesCons(p, t);
      assert p == [p[0]] + p[1..];
      if p[0] == '"' {
        ReadQuotedPair(tail);
        assert "\"" + (p[1..] + r.part) == p + r.part;
      } else {
        ReadQuotedChar(p[0], tail);
        assert [p[0]] + (p[1..] + r.part) == p + r.part;
      }
    }
  }

  lemma ReadQuotedPart(p: string, rest: string)
    ensures ReadQuoted(DoubleQuotes(p) + "\"") == Token(p, "", false)
    ensures ReadQuoted(DoubleQuotes(p) + "\" " + rest) == Token(p, rest, true)
  {
    ReadQuotedPrefix(p, "\"");
    assert ReadQuoted("\"") == Token("", "", false);
    assert p + "" == p;
    ReadQuotedPrefix(p, "\" " + rest);
    assert ("\" " + rest)[2..] == rest;
    assert DoubleQuotes(p) + "\" " + rest == DoubleQuotes(p) + ("\" " + rest);
  }

  lemma NoQuoteNoSpace(part: string)
    requires !NeedsQuotes(part)
    ensures forall i :: 0 <= i < |part| ==> part[i] != ' ' && part[i] != '"'
  {
    forall i | 0 <= i < |part| ensures part[i] != ' ' && part[i] != '"' {
      assert !(IsSpace(part[i]) || part[i] == '"');
    }
  }

  lemma ReadQuotedWhole(part: string, rest: string)
    requires NeedsQuotes(part)
    ensures ReadPart(QuotePart(part)) == Token(part, "", false)
    ensures ReadPart(QuotePart(part) + " " + rest) == Token(part, rest, true)
  {
    ReadQuotedPart(part, rest);
    QuotedTail(part);
    QuotedTailRest(part, rest);
  }

  /** Past its opening quote, a quoted part is its doubled text and the closing quote. */
  lemma QuotedTail(part: string)
    requires NeedsQuotes(part)
    ensures |QuotePart(part)| > 0 && QuotePart(part)[0] == '"'
    ensures QuotePart(part)[1..] == DoubleQuotes(part) + "\""
  {
    var d := DoubleQuotes(part);
    assert QuotePart(part) == "\"" + d + "\"";
    assert ("\"" + d + "\"")[1..] == d + "\"";
  }

  lemma QuotedTailRest(part: string, rest: string)
    requires NeedsQuotes(part)
    ensures |QuotePart(part) + " " + rest| > 0 && (QuotePart(part) + " " + rest)[0] == '"'
    ensures (QuotePart(part) + " " + rest)[1..] == DoubleQuotes(part) + "\" " + rest
  {
    var d := DoubleQuotes(part);
    assert QuotePart(part) == "\"" + d + "\"";
    assert ("\"" + d + "\"" + " " + rest)[1..] == d + "\" " + rest;
  }

  lemma ReadPlainWhole(part: string, rest: string)
    requires !NeedsQuotes(part)
    ensures ReadPart(QuotePart(part)) == Token(part, "", false)
    ensures ReadPart(QuotePart(part) + " " + rest) == Token(part, rest, true)
  {
    NoQuoteNoSpace(part);
    ReadPlainAlone(part);
    ReadPlainPart(part, rest);
    if part != [] {
      assert (part + " " + rest)[0] == part[0];
    }
  }

  lemma ReadOnePart(part: string, rest: string)
    ensures ReadPart(QuotePart(part)) == Token(part, "", false)
    ensures ReadPart(QuotePart(part) + " " + rest) == Token(part, rest, true)
  {
    if NeedsQuotes(part) {
      ReadQuotedWhole(part, rest);
    } else {
      ReadPlainWhole(part, rest);
    }
  }

  /** Round trip: the display parses back into exactly the parts it was built from. */
  lemma {:induction false} ParseJoinQuoted(parts: seq<string>)
    requires |parts| >= 1
    ensures ParseDisplay(JoinSpaces(QuoteAll(parts))) == parts
  {
    var q := QuoteAll(parts);
    if |parts| == 1 {
      ReadOnePart(parts[0], "");
    } else {
      assert QuoteAll(parts[1..]) == q[1..];
      ParseJoinQuoted(parts[1..]);
      ReadOnePart(parts[0], JoinSpaces(q[1..]));
      assert JoinSpaces(q) == q[0] + " " + JoinSpaces(q[1..]);
    }
  }

  lemma DisplayRoundTrip(command: string, args: Option<seq<string>>)
    ensures ParseDisplay(Display(command, args)) == [command] + args.GetOr([])
  {
    ParseJoinQuoted(Parts(command, args));
  }

  // ---------------------------------------------------------------------------
  // Separators

  function CountSpaces(s: string): nat {
    if s == [] then 0 else (if s[0] == ' ' then 1 else 0) + CountSpaces(s[1..])
  }

  function SumSpaces(parts: seq<string>): nat {
    if parts == [] then 0 else CountSpaces(parts[0]) + SumSpaces(parts[1..])
  }

  lemma {:induction false} CountSpacesConcat(a: string, b: string)
    ensures CountSpaces(a + b) == CountSpaces(a) + CountSpaces(b)
  {
    if a != [] {
      assert (a + b)[1..] == a[1..] + b;
      CountSpacesConcat(a[1..], b);
    } else {
      assert a + b == b;
    }
  }

  /** The joined text holds the parts' own spaces plus exactly one separator between neighbours. */
  lemma {:induction false} JoinSeparators(parts: seq<string>)
    requires |parts| >= 1
    ensures CountSpaces(JoinSpaces(parts)) == SumSpaces(parts) + |parts| - 1
  {
    if |parts| > 1 {
      JoinSeparators(parts[1..]);
      CountSpacesConcat(parts[0] + " ", JoinSpaces(parts[1..]));
      CountSpacesConcat(parts[0], " ");
      assert SumSpaces(parts[1..][1..]) == SumSpaces(parts[2..]);
    } else {
      assert SumSpaces(parts[1..]) == 0;
    }
  }

  lemma {:induction false} JoinLength(parts: seq<string>)
    requires |parts| >= 1
    ensures |JoinSpaces(parts)| == TotalLength(parts) + |parts| - 1
  {
    if |parts| > 1 {
      JoinLength(parts[1..]);
    }
  }

  function TotalLength(parts: seq<string>): nat {
    if parts == [] then 0 else |parts[0]| + TotalLength(parts[1..])
  }
}
