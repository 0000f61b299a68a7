/** The syslog output's client: its defaults, fixed at construction, and
    the publish loop that formats each event and writes it to the transport,
    counting the lines shipped. */
module SyslogClient {
  import opened SyslogFormat

  /** The byte stream the lines go to; what has been written so far, one
      entry per `Write` call. */
  class Transport {
    var written: seq<string>

    constructor ()
      ensures written == []
    {
      written := [];
    }

    /** Sends one line down the wire. */
    method Write(line: string)
      modifies this
      ensures written == old(written) + [line]
    {
      written := written + [line];
    }
  }

  /** The process-wide count of lines shipped (`libbeatSyslogShippedLines`),
      shared by every client that holds it. */
  class ShippedLines {
    var value: nat

    constructor ()
      ensures value == 0
    {
      value := 0;
    }

    method Add(delta: nat)
      modifies this
      ensures value == old(value) + delta
    {
      value := value + delta;
    }
  }

  /** The hostname a client caches: the result of the lookup, or "unknown"
      when the lookup failed. */
  function ResolveHostname(lookup: Option<string>): (h: string)
    ensures lookup.Some? ==> h == lookup.value
    ensures lookup.None? ==> h == "unknown"
  {
    match lookup
    case Some(name) => name
    case None => "unknown"
  }

  class Client {
    const transport: Transport
    const shippedLines: ShippedLines
    const program: string
    const priority: Uint64
    const severity: Uint64
    /** Looked up once, at construction, and reused for every line. */
    const hostname: string

    /** `newClient`; `hostnameLookup` is what the operating system's
        hostname lookup returned (`None` when it failed). */
    constructor (tc: Transport, counter: ShippedLines, prog: string, pri: Uint64, sev: Uint64,
                 hostnameLookup: Option<string>)
      ensures transport == tc && shippedLines == counter
      ensures Settings() == Defaults(prog, pri, sev, ResolveHostname(hostnameLookup))
    {
      transport := tc;
      shippedLines := counter;
      program := prog;
      priority := pri;
      severity := sev;
      hostname := ResolveHostname(hostnameLookup);
    }

    /** The defaults every formatting call starts from. */
    function Settings(): Defaults {
      Defaults(program, priority, severity, hostname)
    }

    /** Formats and writes every event, in order, one write and one count
        per event; the events come back unchanged and the error is nil. */
    method PublishEvents(events: seq<Event>) returns (unsent: seq<Event>, err: Option<Error>)
      modifies transport, shippedLines
      ensures transport.written == old(transport.written) + Lines(Settings(), events)
      ensures shippedLines.value == old(shippedLines.value) + |events|
      ensures unsent == events && err == None
    {
      for i := 0 to |events|
        invariant transport.written == old(transport.written) + Lines(Settings(), events[..i])
        invariant shippedLines.value == old(shippedLines.value) + i
      {
        var (msg, _) := CreateSyslogString(Settings(), events[i]);
        transport.Write(msg);
        shippedLines.Add(1);
        assert events[..i + 1][..i] == events[..i];
      }
      assert events[..|events|] == events;
      unsent, err := events, None;
    }

    /** Publishes a batch of one event and returns only the error. */
    method PublishEvent(event: Event) returns (err: Option<Error>)
      modifies transport, shippedLines
      ensures transport.written == old(transport.written) + [CreateSyslogString(Settings(), event).0]
      ensures shippedLines.value == old(shippedLines.value) + 1
      ensures err == None
    {
      var _, e := PublishEvents([event]);
      err := e;
    }
  }
}
