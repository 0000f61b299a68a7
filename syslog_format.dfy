/** The syslog line formatter of the syslog output (`CreateSyslogString`):
    per-event overrides of the client's defaults, the PRI token and the
    framing `<PRI>TIMESTAMP HOSTNAME PROGRAM: MESSAGE\n`. Everything here is
    pure: the client's defaults are an argument and are never changed. */
module SyslogFormat {
  import opened DecimalText

  datatype Option<T> = None | Some(value: T)

  /** Go's `error`; the only error value the syslog output declares. */
  datatype Error = ErrNotConnected

  const Uint64Modulus: int := 0x1_0000_0000_0000_0000

  /** Go's `uint64`. */
  type Uint64 = x: int | 0 <= x < 0x1_0000_0000_0000_0000

  /** Go's `int64`, the type an integer override arrives with. */
  type Int64 = x: int | -0x8000_0000_0000_0000 <= x < 0x8000_0000_0000_0000

  /** Go's conversion `uint64(x)` of an `int64`: the two's complement bits
      reread as unsigned, so the value is kept modulo 2^64. */
  function ToUint64(x: Int64): (r: Uint64)
    ensures (r - x) % Uint64Modulus == 0
    ensures 0 <= x ==> r == x
  {
    if x >= 0 then x else x + Uint64Modulus
  }

  /** The optional keys of an event's nested `fields` map, already typed:
      `program` is a string, `priority` and `severity` are `int64`s. */
  datatype Overrides = Overrides(program: Option<string>, priority: Option<Int64>, severity: Option<Int64>)

  /** An event: its `@timestamp` already rendered as RFC 3339 in UTC, its
      `message`, and its `fields` map when the event has one. */
  datatype Event = Event(timestamp: string, message: string, fields: Option<Overrides>)

  /** The client's four defaults. */
  datatype Defaults = Defaults(program: string, priority: Uint64, severity: Uint64, hostname: string)

  /** The values one formatting call works with. */
  datatype Effective = Effective(program: string, priority: Uint64, severity: Uint64)

  /** The effective program, priority and severity of an event: each key
      present in the event's `fields` replaces the default for this call;
      without `fields` the defaults are used unchanged. */
  function Resolve(d: Defaults, e: Event): (r: Effective)
    ensures e.fields.None? ==> r == Effective(d.program, d.priority, d.severity)
    ensures e.fields.Some? && e.fields.value.program.Some? ==> r.program == e.fields.value.program.value
    ensures e.fields.Some? && e.fields.value.priority.Some? ==> r.priority == ToUint64(e.fields.value.priority.value)
    ensures e.fields.Some? && e.fields.value.severity.Some? ==> r.severity == ToUint64(e.fields.value.severity.value)
    ensures (e.fields.None? || e.fields.value.program.None?) ==> r.program == d.program
    ensures (e.fields.None? || e.fields.value.priority.None?) ==> r.priority == d.priority
    ensures (e.fields.None? || e.fields.value.severity.None?) ==> r.severity == d.severity
  {
    var local := Effective(d.program, d.priority, d.severity);
    match e.fields
    case None => local
    case Some(o) =>
      var local := if o.program.Some? then local.(program := o.program.value) else local;
      var local := if o.priority.Some? then local.(priority := ToUint64(o.priority.value)) else local;
      if o.severity.Some? then local.(severity := ToUint64(o.severity.value)) else local
  }

  /** `priority * 8 + severity` in `uint64` arithmetic. */
  function PriValue(pri: Uint64, sev: Uint64): (v: Uint64)
    ensures (v - (pri * 8 + sev)) % Uint64Modulus == 0
    ensures pri * 8 + sev < Uint64Modulus ==> v == pri * 8 + sev
  {
    (pri * 8 + sev) % Uint64Modulus
  }

  /** The text between the angle brackets: always a nonempty string of
      digits (so it never holds the closing '>'), starting with '0' exactly
      when the priority is zero or the uint64 value `priority*8+severity`
      is zero. */
  function PriToken(pri: Uint64, sev: Uint64): (tok: string)
    ensures |tok| >= 1 && AllDigits(tok)
    ensures tok[0] == '0' <==> (pri == 0 || PriValue(pri, sev) == 0)
  {
    if pri == 0 && sev == 0 then "0"
    else if pri == 0 && sev != 0 then
      var digits := Decimal(sev);
      assert forall i :: 1 <= i < 1 + |digits| ==> ("0" + digits)[i] == digits[i - 1];
      "0" + digits
    else Decimal(PriValue(pri, sev))
  }

  /** Formats one event; the error is always nil. */
  function CreateSyslogString(d: Defaults, e: Event): (r: (string, Option<Error>))
    ensures r.1 == None
    ensures var head := "<" + PriToken(Resolve(d, e).priority, Resolve(d, e).severity) + ">";
      |head| <= |r.0| && r.0[..|head|] == head
    ensures var tail := ": " + e.message + "\n";
      |tail| <= |r.0| && r.0[|r.0| - |tail|..] == tail
  {
    var local := Resolve(d, e);
    var priNum := PriToken(local.priority, local.severity);
    ("<" + priNum + ">" + e.timestamp + " " + d.hostname + " " + local.program + ": " + e.message + "\n", None)
  }

  /** The lines a batch produces, one per event, in order. */
  function Lines(d: Defaults, es: seq<Event>): (ls: seq<string>)
    ensures |ls| == |es|
    ensures forall k :: 0 <= k < |es| ==> ls[k] == CreateSyslogString(d, es[k]).0
  {
    if es == [] then [] else Lines(d, es[..|es| - 1]) + [CreateSyslogString(d, es[|es| - 1]).0]
  }

  /** Two batches published one after the other write the same lines as
      their concatenation published at once. */
  lemma {:induction false} LinesAppend(d: Defaults, a: seq<Event>, b: seq<Event>)
    ensures Lines(d, a + b) == Lines(d, a) + Lines(d, b)
  {
    var l := Lines(d, a + b);
    var r := Lines(d, a) + Lines(d, b);
    assert |l| == |r|;
    forall k | 0 <= k < |l| ensures l[k] == r[k] {
      if k < |a| {
        assert (a + b)[k] == a[k];
      } else {
        assert (a + b)[k] == b[k - |a|];
      }
    }
  }

  // ---------------------------------------------------------------------
  // The PRI rule

  /** Both zero: the PRI token is exactly "0". */
  lemma PriTokenBothZero()
    ensures PriToken(0, 0) == "0"
  {
  }

  /** Priority zero, severity nonzero: a literal '0' followed by the digits
      of the severity, so one character longer than the severity's rendering
      and reading back to the severity. */
  lemma PriTokenKernel(sev: Uint64)
    requires sev != 0
    ensures var tok := PriToken(0, sev);
      |tok| == 1 + |Decimal(sev)| && tok[0] == '0' && tok[1..] == Decimal(sev)
      && AllDigits(tok[1..]) && ParseDecimal(tok[1..]) == sev
  {
    ParseDecimalInvertsDecimal(sev);
  }

  /** Priority nonzero: the decimal rendering of `priority * 8 + severity`
      (facility * 8 + severity, as RFC 5424 section 6.2.1 computes the PRI
      value), with no leading zero, as long as the sum fits in a `uint64`. */
  lemma PriTokenStandard(pri: Uint64, sev: Uint64)
    requires pri != 0 && pri * 8 + sev < Uint64Modulus
    ensures var tok := PriToken(pri, sev);
      AllDigits(tok) && tok[0] != '0' && ParseDecimal(tok) == pri * 8 + sev
  {
    ParseDecimalInvertsDecimal(pri * 8 + sev);
  }

  /** Reads a PRI token back into (priority, severity), following the same
      three-way rule; a value without a leading zero is split by RFC 5424
      facility/severity arithmetic. */
  function DecodePri(tok: string): Option<(nat, nat)> {
    if tok == "0" then Some((0, 0))
    else if |tok| >= 2 && tok[0] == '0' && AllDigits(tok[1..]) then Some((0, ParseDecimal(tok[1..])))
    else if |tok| >= 1 && tok[0] != '0' && AllDigits(tok) then Some((ParseDecimal(tok) / 8, ParseDecimal(tok) % 8))
    else None
  }

  /** The PRI token determines priority and severity whenever the severity
      is a syslog severity (below 8) or the priority is zero, and the sum
      does not wrap. */
  lemma {:induction false} PriTokenRoundTrip(pri: Uint64, sev: Uint64)
    requires pri == 0 || (sev < 8 && pri * 8 + sev < Uint64Modulus)
    ensures DecodePri(PriToken(pri, sev)) == Some((pri, sev))
  {
    if pri == 0 && sev != 0 {
      PriTokenKernel(sev);
    } else if pri != 0 {
      PriTokenStandard(pri, sev);
      assert PriToken(pri, sev) != "0";
    }
  }

  // ---------------------------------------------------------------------
  // Reading a line back: the framing round trip

  /** The pieces of a framed line: the PRI token, the header
      (`TIMESTAMP HOSTNAME PROGRAM`) and the message. */
  datatype Frame = Frame(pri: string, header: string, message: string)

  /** The first position of `c` in `s`, or `|s|` when there is none. */
  function IndexOf(s: string, c: char): (k: nat)
    ensures k <= |s|
    ensures k < |s| ==> s[k] == c
    ensures forall i :: 0 <= i < k ==> s[i] != c
  {
    if s == [] then 0 else if s[0] == c then 0 else 1 + IndexOf(s[1..], c)
  }

  predicate ColonSpaceAt(s: string, i: int) {
    0 <= i && i + 1 < |s| && s[i] == ':' && s[i + 1] == ' '
  }

  /** The first position of ": " in `s`, or `|s|` when there is none. */
  function IndexOfColonSpace(s: string): (k: nat)
    ensures k <= |s|
    ensures k < |s| ==> ColonSpaceAt(s, k)
    ensures forall i :: 0 <= i < k ==> !ColonSpaceAt(s, i)
  {
    if |s| < 2 then |s|
    else if s[0] == ':' && s[1] == ' ' then 0
    else
      var k := IndexOfColonSpace(s[1..]);
      assert forall i | 1 <= i < 1 + k :: ColonSpaceAt(s, i) == ColonSpaceAt(s[1..], i - 1);
      1 + k
  }

  /** Splits a line at its first '>' and at the first ": " after it. */
  function ParseLine(line: string): Option<Frame> {
    if |line| < 2 || line[0] != '<' || line[|line| - 1] != '\n' then None
    else
      var j := IndexOf(line, '>');
      if j >= |line| - 1 then None
      else
        var rest := line[j + 1..|line| - 1];
        var k := IndexOfColonSpace(rest);
        if k == |rest| then None
        else Some(Frame(line[1..j], rest[..k], rest[k + 2..]))
  }

  /** The text after the last space of a header: the program. */
  function ProgramOf(header: string): string {
    if header == [] || header[|header| - 1] == ' ' then []
    else ProgramOf(header[..|header| - 1]) + [header[|header| - 1]]
  }

  /** The header a formatted line carries: the timestamp, the client's
      hostname and the effective program, each separated by one space. */
  function Header(d: Defaults, e: Event): (h: string)
    ensures var ts, host, prog := e.timestamp, d.hostname, Resolve(d, e).program;
      |h| == |ts| + 1 + |host| + 1 + |prog|
      && h[..|ts|] == ts && h[|ts|] == ' '
      && h[|ts| + 1..|ts| + 1 + |host|] == host && h[|ts| + 1 + |host|] == ' '
      && h[|h| - |prog|..] == prog
  {
    e.timestamp + " " + d.hostname + " " + Resolve(d, e).program
  }

  /** A program name without spaces is the part of the header after its
      last space. */
  lemma {:induction false} ProgramOfRoundTrip(front: string, prog: string)
    requires forall i :: 0 <= i < |prog| ==> prog[i] != ' '
    ensures ProgramOf(front + " " + prog) == prog
    decreases |prog|
  {
    var h := front + " " + prog;
    if prog != [] {
      var p' := prog[..|prog| - 1];
      assert h[..|h| - 1] == front + " " + p';
      ProgramOfRoundTrip(front, p');
      assert prog == p' + [prog[|prog| - 1]];
    } else {
      assert h[|h| - 1] == ' ';
    }
  }

  /** The first ": " of `header + ": " + msg` is the added one, provided
      the header has none of its own. */
  lemma ColonSpaceAfterHeader(header: string, msg: string)
    requires forall i :: !ColonSpaceAt(header, i)
    ensures IndexOfColonSpace(header + ": " + msg) == |header|
  {
    var s := header + ": " + msg;
    assert ColonSpaceAt(s, |header|);
    forall i | 0 <= i < |header| ensures !ColonSpaceAt(s, i) {
      if i + 1 < |header| {
        assert !ColonSpaceAt(header, i);
        assert s[i] == header[i] && s[i + 1] == header[i + 1];
      } else {
        assert s[i + 1] == ':';
      }
    }
  }

  /** Any line framed as `<TOKEN>HEADER: MESSAGE\n` splits back into its
      pieces, provided the token is digits and the header holds no ": ". */
  lemma ParseFramed(tok: string, header: string, msg: string)
    requires |tok| >= 1 && AllDigits(tok)
    requires forall i :: !ColonSpaceAt(header, i)
    ensures ParseLine("<" + tok + ">" + (header + ": " + msg) + "\n") == Some(Frame(tok, header, msg))
  {
    var line := "<" + tok + ">" + (header + ": " + msg) + "\n";
    var j := IndexOf(line, '>');
    assert line[1 + |tok|] == '>';
    assert forall i :: 1 <= i < 1 + |tok| ==> line[i] == tok[i - 1];
    assert j == 1 + |tok|;
    assert line[1..j] == tok;
    var rest := line[j + 1..|line| - 1];
    assert rest == header + ": " + msg;
    ColonSpaceAfterHeader(header, msg);
    assert rest[..|header|] == header;
    assert rest[|header| + 2..] == msg;
  }

  /** Splitting a formatted line at its first '>' and first ": " recovers
      the PRI token, the header and the message, provided the header holds
      no ": " of its own. */
  lemma FrameRoundTrip(d: Defaults, e: Event)
    requires forall i :: !ColonSpaceAt(Header(d, e), i)
    ensures ParseLine(CreateSyslogString(d, e).0)
         == Some(Frame(PriToken(Resolve(d, e).priority, Resolve(d, e).severity), Header(d, e), e.message))
  {
    var r := Resolve(d, e);
    var tok := PriToken(r.priority, r.severity);
    var header := Header(d, e);
    assert CreateSyslogString(d, e).0 == "<" + tok + ">" + (header + ": " + e.message) + "\n";
    ParseFramed(tok, header, e.message);
  }

  /** The framing round trip in full: PRI, program and message come back
      out of a formatted line (the program after the header's last space). */
  lemma LineRoundTrip(d: Defaults, e: Event)
    requires forall i :: !ColonSpaceAt(Header(d, e), i)
    requires forall i :: 0 <= i < |Resolve(d, e).program| ==> Resolve(d, e).program[i] != ' '
    requires var r := Resolve(d, e); r.priority == 0 || (r.severity < 8 && r.priority * 8 + r.severity < Uint64Modulus)
    ensures var r := Resolve(d, e);
      match ParseLine(CreateSyslogString(d, e).0)
      case None => false
      case Some(f) =>
        DecodePri(f.pri) == Some((r.priority, r.severity))
        && ProgramOf(f.header) == r.program && f.message == e.message
  {
    var r := Resolve(d, e);
    FrameRoundTrip(d, e);
    PriTokenRoundTrip(r.priority, r.severity);
    ProgramOfRoundTrip(e.timestamp + " " + d.hostname, r.program);
  }

  // ---------------------------------------------------------------------
  // Overrides

  /** An event without `fields`, and one whose `fields` holds none of the
      three keys, format exactly as the defaults dictate. */
  lemma EmptyFieldsAreNoFields(d: Defaults, ts: string, msg: string)
    ensures CreateSyslogString(d, Event(ts, msg, Some(Overrides(None, None, None))))
         == CreateSyslogString(d, Event(ts, msg, None))
  {
  }

  /** The hostname of every line is the client's; the event cannot change it. */
  lemma HostnameIsClients(d: Defaults, e: Event)
    ensures var line := CreateSyslogString(d, e).0;
      var off := 2 + |PriToken(Resolve(d, e).priority, Resolve(d, e).severity)| + |e.timestamp| + 1;
      off + |d.hostname| <= |line| && line[off..off + |d.hostname|] == d.hostname
  {
    var r := Resolve(d, e);
    var tok := PriToken(r.priority, r.severity);
    var line := CreateSyslogString(d, e).0;
    var off := 2 + |tok| + |e.timestamp| + 1;
    assert line == ("<" + tok + ">" + e.timestamp + " ") + d.hostname + (" " + r.program + ": " + e.message + "\n");
  }

  // ---------------------------------------------------------------------
  // Two concrete lines

  /** A kernel-facility override: priority 0, severity 6 gives "<06>". */
  lemma KernelOverrideExample(host: string)
    ensures CreateSyslogString(Defaults("app", 1, 3, host),
              Event("2024-01-01T00:00:00Z", "boot ok", Some(Overrides(Some("kernel"), Some(0), Some(6))))).0
         == "<" + "06" + ">" + "2024-01-01T00:00:00Z" + " " + host + " " + "kernel" + ": " + "boot ok" + "\n"
  {
    assert Decimal(6) == [DigitChar(6)];
    assert PriToken(0, 6) == "06";
  }

  /** Without overrides the defaults priority 1, severity 3 give 1*8+3 = 11. */
  lemma DefaultsExample(host: string)
    ensures CreateSyslogString(Defaults("app", 1, 3, host), Event("2024-01-01T00:00:00Z", "boot ok", None)).0
         == "<" + "11" + ">" + "2024-01-01T00:00:00Z" + " " + host + " " + "app" + ": " + "boot ok" + "\n"
  {
    assert Decimal(11) == Decimal(1) + [DigitChar(1)];
    assert PriToken(1, 3) == "11";
  }
}
