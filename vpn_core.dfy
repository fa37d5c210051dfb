/** The pure string pieces of the VPN back end: the stunnel client
    configuration written by `create_stunnel_config`, the local-port scan and
    the log/pid path derivation in `start_stunnel`, the DNS server list of
    `create_tun_vpn` and the listening test of `check_udpgw_status`. */
module VpnCore {
  import opened PyText

  const Loopback := "127.0.0.1"
  const StunnelPrefix := "/tmp/stunnel_ssh_"
  const DefaultPrimaryDns := "8.8.8.8"
  const DefaultSecondaryDns := "8.8.4.4"

  // ---------------------------------------------------------------------------
  // check_udpgw_status
  // ---------------------------------------------------------------------------

  /** The address a UDP gateway on `port` listens on, as `ss` prints it. */
  function GatewayAddress(port: int): string
  {
    Loopback + ":" + IntText(port)
  }

  /** `check_udpgw_status(port)`: `ss` is the output of `ss -tuln`, or `None`
      when running it raised (the function then answers false). */
  function UdpgwListening(ss: Option<string>, port: int): bool
  {
    ss.Some? && Contains(ss.value, GatewayAddress(port))
  }

  /** The gateway counts as up exactly when the listing exists and shows the
      gateway address somewhere in it. */
  lemma UdpgwListeningMeans(ss: Option<string>, port: int)
    ensures UdpgwListening(ss, port) <==> ss.Some? && exists i :: OccursAt(ss.value, GatewayAddress(port), i)
  {
    if ss.Some? {
      ContainsAt(ss.value, GatewayAddress(port));
    }
  }

  // ---------------------------------------------------------------------------
  // create_stunnel_config
  // ---------------------------------------------------------------------------

  /** The common stem of the config, log and pid file names. */
  function StunnelStem(suffix: int): string { StunnelPrefix + IntText(suffix) }

  function ConfigPath(suffix: int): string { StunnelStem(suffix) + ".conf" }
  function LogPath(suffix: int): string { StunnelStem(suffix) + ".log" }
  function PidPath(suffix: int): string { StunnelStem(suffix) + ".pid" }

  /** The line that tells stunnel where to accept the unwrapped SSH stream. */
  function AcceptLine(port: int): string
  {
    "accept = " + Loopback + ":" + IntText(port) + "\n"
  }

  /** The global section and the service lines before the accept line. */
  function HeadLines(suffix: int): seq<string>
  {
    ["foreground = no\n", "debug = 7\n",
     "pid = " + PidPath(suffix) + "\n", "output = " + LogPath(suffix) + "\n",
     "\n", "[ssh-tls]\n", "client = yes\n"]
  }

  /** The line that tells stunnel where the TLS server is. */
  function ConnectLine(serverIp: string, tlsPort: int): string
  {
    "connect = " + serverIp + ":" + IntText(tlsPort) + "\n"
  }

  /** The service lines after the accept line. */
  function TailLines(serverIp: string, tlsPort: int, sni: string): seq<string>
  {
    [ConnectLine(serverIp, tlsPort), "sni = " + sni + "\n",
     "verifyChain = no\n", "TIMEOUTclose = 0\n", "delay = yes\n"]
  }

  /** The lines of the file, in order. */
  function ConfigLines(suffix: int, port: int, serverIp: string, tlsPort: int, sni: string): seq<string>
  {
    HeadLines(suffix) + [AcceptLine(port)] + TailLines(serverIp, tlsPort, sni)
  }

  function ConfigText(suffix: int, port: int, serverIp: string, tlsPort: int, sni: string): string
  {
    Concat(ConfigLines(suffix, port, serverIp, tlsPort, sni))
  }

  /** The text is the head, the accept line and the tail, one after the other. */
  lemma ConfigTextParts(suffix: int, port: int, serverIp: string, tlsPort: int, sni: string)
    ensures ConfigText(suffix, port, serverIp, tlsPort, sni)
         == Concat(HeadLines(suffix)) + AcceptLine(port) + Concat(TailLines(serverIp, tlsPort, sni))
  {
    var head := HeadLines(suffix);
    var tail := TailLines(serverIp, tlsPort, sni);
    ConcatAppend(head + [AcceptLine(port)], tail);
    ConcatAppend(head, [AcceptLine(port)]);
    assert Concat([AcceptLine(port)]) == AcceptLine(port);
  }

  /** The file `create_stunnel_config` writes, where it writes it, and the
      local port it returns with the path. */
  datatype StunnelConfig = StunnelConfig(path: string, localPort: int, content: string)

  /** `create_stunnel_config(host, tls_port, sni_domain, local_port)`.
      `randomPort` and `suffix` are the two `random.randint` draws (the first
      one is only made when no port is given); `resolved` is what
      `gethostbyname(host)` returns, `None` when it raises. */
  function CreateStunnelConfig(host: string, tlsPort: int, sni: string, localPort: Option<int>,
                               randomPort: int, suffix: int, resolved: Option<string>): (c: StunnelConfig)
    requires 22000 <= randomPort <= 22999 && 10000 <= suffix <= 99999
    ensures localPort.Some? ==> c.localPort == localPort.value
    ensures localPort.None? ==> 22000 <= c.localPort <= 22999
    ensures c.path == ConfigPath(suffix)
    ensures Contains(c.content, AcceptLine(c.localPort))
    ensures Contains(c.content, ConnectLine(if resolved.Some? then resolved.value else host, tlsPort))
  {
    var port := if localPort.Some? then localPort.value else randomPort;
    var serverIp := if resolved.Some? then resolved.value else host;
    var content := ConfigText(suffix, port, serverIp, tlsPort, sni);
    ConfigShowsPort(suffix, port, serverIp, tlsPort, sni);
    StunnelConfig(ConfigPath(suffix), port, content)
  }

  /** The config holds the accept line and the connect line. */
  lemma ConfigShowsPort(suffix: int, port: int, serverIp: string, tlsPort: int, sni: string)
    ensures Contains(ConfigText(suffix, port, serverIp, tlsPort, sni), AcceptLine(port))
    ensures Contains(ConfigText(suffix, port, serverIp, tlsPort, sni), ConnectLine(serverIp, tlsPort))
  {
    ConfigTextParts(suffix, port, serverIp, tlsPort, sni);
    var head := Concat(HeadLines(suffix));
    var tail := TailLines(serverIp, tlsPort, sni);
    ContainsInfix(head, AcceptLine(port), Concat(tail));
    assert Concat(tail) == ConnectLine(serverIp, tlsPort) + Concat(tail[1..]);
    Associates(head + AcceptLine(port), ConnectLine(serverIp, tlsPort), Concat(tail[1..]));
    ContainsInfix(head + AcceptLine(port), ConnectLine(serverIp, tlsPort), Concat(tail[1..]));
  }

  // ---------------------------------------------------------------------------
  // start_stunnel: recovering the local port from the config file
  // ---------------------------------------------------------------------------

  /** The test `'accept' in line and '127.0.0.1:' in line`. */
  predicate Matches(line: string)
  {
    Contains(line, "accept") && Contains(line, Loopback + ":")
  }

  /** `int(line.split(':')[-1].strip())`; `None` when `int` raises. */
  function PortOfLine(line: string): Option<int>
  {
    ParseInt(Strip(Last(Split(line, ':'))))
  }

  /** What the scan of the config's lines ends with: no matching line, the
      port read from the first matching line, or a `ValueError` from it. */
  datatype Scan = NoMatch | Parsed(port: int) | Unparsable

  /** The scan over the lines, as a definition by cases on the first line. */
  function ScanLines(lines: seq<string>): (s: Scan)
    ensures s == NoMatch <==> forall k :: 0 <= k < |lines| ==> !Matches(lines[k])
  {
    if lines == [] then NoMatch
    else if Matches(lines[0]) then
      match PortOfLine(lines[0])
      case None => Unparsable
      case Some(p) => Parsed(p)
    else
      var s := ScanLines(lines[1..]);
      assert forall k :: 1 <= k < |lines| ==> lines[k] == lines[1..][k - 1];
      s
  }

  /** The `for line in f` loop of `start_stunnel` over the text of the config
      file: the first line that mentions both "accept" and "127.0.0.1:"
      decides, and the loop stops there. */
  method ExtractLocalPort(text: string) returns (scan: Scan)
    ensures scan == ScanLines(Lines(text))
  {
    var lines := Lines(text);
    scan := NoMatch;
    var i := 0;
    while i < |lines|
      invariant 0 <= i <= |lines|
      invariant scan == NoMatch
      invariant ScanLines(lines) == ScanLines(lines[i..])
    {
      var line := lines[i];
      assert lines[i..][1..] == lines[i + 1..];
      if Contains(line, "accept") && Contains(line, Loopback + ":") {
        var port := ParseInt(Strip(Last(Split(line, ':'))));
        scan := if port.None? then Unparsable else Parsed(port.value);
        return;
      }
      i := i + 1;
    }
  }

  /** How `start_stunnel` goes on after the scan: `Missing` is its early
      `return None` (no line, or a port of 0, which `not local_port` rejects);
      `Raised` is the `(None, None)` of its exception handler. */
  datatype PortLookup = Missing | Raised | Found(port: int)

  function LookupPort(scan: Scan): (r: PortLookup)
    ensures r.Found? ==> r.port != 0 && scan == Parsed(r.port)
    ensures r == Missing <==> scan == NoMatch || scan == Parsed(0)
  {
    match scan
    case NoMatch => Missing
    case Unparsable => Raised
    case Parsed(p) => if p == 0 then Missing else Found(p)
  }

  /** No character of `str(i)` is a letter, a '.', a ':', a ',' or a newline. */
  lemma IntTextPlain(i: int)
    ensures 'a' !in IntText(i) && '.' !in IntText(i) && ':' !in IntText(i) && '\n' !in IntText(i)
    ensures ',' !in IntText(i)
  {
    IntTextChars(i);
  }

  /** Nor is any character of the file-name stem. */
  lemma StemPlain(suffix: int)
    ensures 'a' !in StunnelStem(suffix) && '.' !in StunnelStem(suffix) && '\n' !in StunnelStem(suffix)
  {
    IntTextPlain(suffix);
    assert 'a' !in StunnelPrefix && '.' !in StunnelPrefix && '\n' !in StunnelPrefix;
  }

  /** A text with no newline, with one put after it, is a single line. */
  lemma OneLine(s: string)
    requires '\n' !in s
    ensures TerminatedLine(s + "\n")
  {
    assert forall i :: 0 <= i < |s| ==> (s + "\n")[i] == s[i];
  }

  /** A line without the letter 'a' does not match. */
  lemma NoLetterA(line: string)
    requires 'a' !in line
    ensures !Matches(line)
  {
    if Contains(line, "accept") {
      ContainsFirst(line, "accept");
    }
  }

  /** The accept line matches and yields its port. */
  lemma AcceptLineParses(port: int)
    ensures Matches(AcceptLine(port))
    ensures PortOfLine(AcceptLine(port)) == Some(port)
  {
    AcceptLineMatches(port);
    AcceptLineSplits(port);
    ParseIntIgnoresTrailingSpace(port, "\n");
  }

  lemma AcceptLineMatches(port: int)
    ensures Matches(AcceptLine(port))
  {
    var right := IntText(port) + "\n";
    Regroup5("accept = ", Loopback, ":", IntText(port), "\n");
    ContainsInfix("accept = ", Loopback + ":", right);
    assert "accept" <= "accept = ";
    PrefixExtends("accept", "accept = ", (Loopback + ":") + right);
  }

  /** The accept line splits at its one colon, after the address. */
  lemma AcceptLineSplits(port: int)
    ensures Split(AcceptLine(port), ':') == ["accept = " + Loopback, IntText(port) + "\n"]
  {
    var left := "accept = " + Loopback;
    var right := IntText(port) + "\n";
    IntTextPlain(port);
    assert ':' !in left;
    assert ':' !in right;
    assert Join([left, right], [':']) == AcceptLine(port);
    SplitJoin([left, right], ':');
  }

  /** Lines that do not match leave the scan to what follows them. */
  lemma {:induction false} ScanSkips(skipped: seq<string>, rest: seq<string>)
    requires forall k :: 0 <= k < |skipped| ==> !Matches(skipped[k])
    ensures ScanLines(skipped + rest) == ScanLines(rest)
  {
    if skipped != [] {
      assert (skipped + rest)[0] == skipped[0];
      assert (skipped + rest)[1..] == skipped[1..] + rest;
      ScanSkips(skipped[1..], rest);
    } else {
      assert skipped + rest == rest;
    }
  }

  /** A single line without the letter 'a'. */
  predicate PlainLine(line: string)
  {
    TerminatedLine(line) && 'a' !in line
  }

  /** The fixed lines of the global section. */
  lemma GlobalLinesPlain()
    ensures PlainLine("foreground = no\n") && PlainLine("debug = 7\n") && PlainLine("\n")
  {
    PlainOf("foreground = no");
    PlainOf("debug = 7");
    PlainOf("");
  }

  /** The fixed lines opening the service section. */
  lemma ServiceLinesPlain()
    ensures PlainLine("[ssh-tls]\n") && PlainLine("client = yes\n")
  {
    PlainOf("[ssh-tls]");
    PlainOf("client = yes");
  }

  lemma PlainOf(s: string)
    requires '\n' !in s && 'a' !in s
    ensures PlainLine(s + "\n")
  {
    OneLine(s);
  }

  /** The lines naming the pid and log files. */
  lemma PathLinesPlain(suffix: int)
    ensures PlainLine("pid = " + PidPath(suffix) + "\n") && PlainLine("output = " + LogPath(suffix) + "\n")
  {
    StemPlain(suffix);
    var pid := "pid = " + PidPath(suffix);
    var log := "output = " + LogPath(suffix);
    assert 'a' !in pid && '\n' !in pid;
    assert 'a' !in log && '\n' !in log;
    OneLine(pid);
    OneLine(log);
  }

  /** Each line before the accept line is a single line without the letter 'a'. */
  lemma HeadPlain(suffix: int)
    ensures forall k :: 0 <= k < |HeadLines(suffix)| ==> PlainLine(HeadLines(suffix)[k])
  {
    GlobalLinesPlain();
    ServiceLinesPlain();
    PathLinesPlain(suffix);
  }

  /** No line before the accept line matches. */
  lemma HeadSkipped(suffix: int)
    ensures forall k :: 0 <= k < |HeadLines(suffix)| ==> !Matches(HeadLines(suffix)[k])
  {
    HeadPlain(suffix);
    forall k | 0 <= k < |HeadLines(suffix)|
      ensures !Matches(HeadLines(suffix)[k])
    {
      NoLetterA(HeadLines(suffix)[k]);
    }
  }

  lemma AcceptLineTerminated(port: int)
    ensures TerminatedLine(AcceptLine(port))
  {
    IntTextPlain(port);
    var body := "accept = " + Loopback + ":" + IntText(port);
    assert '\n' !in "accept = " + Loopback + ":";
    assert '\n' !in body;
    OneLine(body);
  }

  /** The lines up to the accept line, as the scan sees them. */
  lemma HeadTerminated(suffix: int, port: int)
    ensures forall k :: 0 <= k < |HeadLines(suffix) + [AcceptLine(port)]| ==>
      TerminatedLine((HeadLines(suffix) + [AcceptLine(port)])[k])
  {
    HeadPlain(suffix);
    AcceptLineTerminated(port);
  }

  /** The lines of the config, iterated as `start_stunnel` iterates them,
      begin with the lines up to the accept line. */
  lemma IteratedLines(suffix: int, port: int, serverIp: string, tlsPort: int, sni: string)
    ensures Lines(ConfigText(suffix, port, serverIp, tlsPort, sni))
         == HeadLines(suffix) + [AcceptLine(port)] + Lines(Concat(TailLines(serverIp, tlsPort, sni)))
  {
    var head := HeadLines(suffix) + [AcceptLine(port)];
    ConfigTextParts(suffix, port, serverIp, tlsPort, sni);
    ConcatAppend(HeadLines(suffix), [AcceptLine(port)]);
    assert Concat([AcceptLine(port)]) == AcceptLine(port);
    HeadTerminated(suffix, port);
    LinesOfTerminated(head, Concat(TailLines(serverIp, tlsPort, sni)));
  }

  /** Round trip: the scan of `start_stunnel` reads back, from the text
      `create_stunnel_config` writes, exactly the local port it put there,
      whatever the server address and SNI name; a port of 0 is read back and
      then rejected. */
  lemma ExtractRoundTrip(suffix: int, port: int, serverIp: string, tlsPort: int, sni: string)
    ensures ScanLines(Lines(ConfigText(suffix, port, serverIp, tlsPort, sni))) == Parsed(port)
    ensures LookupPort(ScanLines(Lines(ConfigText(suffix, port, serverIp, tlsPort, sni))))
         == if port == 0 then Missing else Found(port)
  {
    IteratedLines(suffix, port, serverIp, tlsPort, sni);
    ScanAfterHead(suffix, port, Lines(Concat(TailLines(serverIp, tlsPort, sni))));
  }

  /** The scan stops at the accept line, whatever follows it. */
  lemma ScanAfterHead(suffix: int, port: int, rest: seq<string>)
    ensures ScanLines(HeadLines(suffix) + [AcceptLine(port)] + rest) == Parsed(port)
  {
    HeadSkipped(suffix);
    assert HeadLines(suffix) + [AcceptLine(port)] + rest == HeadLines(suffix) + ([AcceptLine(port)] + rest);
    ScanSkips(HeadLines(suffix), [AcceptLine(port)] + rest);
    AcceptLineParses(port);
  }

  /** The same round trip from the `create_stunnel_config` call itself. */
  lemma CreatedConfigRoundTrip(host: string, tlsPort: int, sni: string, localPort: Option<int>,
                               randomPort: int, suffix: int, resolved: Option<string>)
    requires 22000 <= randomPort <= 22999 && 10000 <= suffix <= 99999
    requires localPort.Some? ==> localPort.value != 0
    ensures var c := CreateStunnelConfig(host, tlsPort, sni, localPort, randomPort, suffix, resolved);
      LookupPort(ScanLines(Lines(c.content))) == Found(c.localPort)
  {
    var c := CreateStunnelConfig(host, tlsPort, sni, localPort, randomPort, suffix, resolved);
    ExtractRoundTrip(suffix, c.localPort, if resolved.Some? then resolved.value else host, tlsPort, sni);
  }

  /** A text with no matching line gives no port. */
  lemma NoAcceptNoPort(text: string)
    requires forall k :: 0 <= k < |Lines(text)| ==> !Matches(Lines(text)[k])
    ensures LookupPort(ScanLines(Lines(text))) == Missing
  {
  }

  // ---------------------------------------------------------------------------
  // start_stunnel: log and pid paths
  // ---------------------------------------------------------------------------

  /** `config_path.replace('.conf', '.log')`. */
  function LogFileOf(configPath: string): string { Replace(configPath, ".conf", ".log") }

  /** `config_path.replace('.conf', '.pid')`. */
  function PidFileOf(configPath: string): string { Replace(configPath, ".conf", ".pid") }

  /** The paths `start_stunnel` derives from the config path are the ones
      the config names as its log output and pid file. */
  lemma DerivedPaths(suffix: int)
    ensures LogFileOf(ConfigPath(suffix)) == LogPath(suffix)
    ensures PidFileOf(ConfigPath(suffix)) == PidPath(suffix)
  {
    StemPlain(suffix);
    ReplaceSuffix(StunnelStem(suffix), ".conf", ".log");
    ReplaceSuffix(StunnelStem(suffix), ".conf", ".pid");
  }

  /** The config names those paths as its pid file and its log output. */
  lemma ConfigNamesPaths(suffix: int, port: int, serverIp: string, tlsPort: int, sni: string)
    ensures Contains(ConfigText(suffix, port, serverIp, tlsPort, sni), "pid = " + PidFileOf(ConfigPath(suffix)) + "\n")
    ensures Contains(ConfigText(suffix, port, serverIp, tlsPort, sni), "output = " + LogFileOf(ConfigPath(suffix)) + "\n")
  {
    DerivedPaths(suffix);
    var pidLine := "pid = " + PidPath(suffix) + "\n";
    var logLine := "output = " + LogPath(suffix) + "\n";
    var before, rest := ConfigAroundPaths(suffix, port, serverIp, tlsPort, sni);
    ContainsInfix(before, pidLine, logLine + rest);
    assert before + pidLine + (logLine + rest) == (before + pidLine) + logLine + rest;
    ContainsInfix(before + pidLine, logLine, rest);
  }

  /** What comes before the pid line and after the log line. */
  lemma ConfigAroundPaths(suffix: int, port: int, serverIp: string, tlsPort: int, sni: string)
      returns (before: string, rest: string)
    ensures ConfigText(suffix, port, serverIp, tlsPort, sni)
         == before + ("pid = " + PidPath(suffix) + "\n") + (("output = " + LogPath(suffix) + "\n") + rest)
  {
    ConfigTextParts(suffix, port, serverIp, tlsPort, sni);
    HeadStarts(suffix);
    var h := HeadLines(suffix);
    before := h[0] + h[1];
    rest := Concat(h[4..]) + AcceptLine(port) + Concat(TailLines(serverIp, tlsPort, sni));
    Regroup6(before, "pid = " + PidPath(suffix) + "\n", "output = " + LogPath(suffix) + "\n",
            Concat(h[4..]), AcceptLine(port), Concat(TailLines(serverIp, tlsPort, sni)));
  }

  /** The config text, cut around its pid and log lines. */
  lemma HeadStarts(suffix: int)
    ensures var h := HeadLines(suffix);
      Concat(h) == (h[0] + h[1]) + ("pid = " + PidPath(suffix) + "\n")
        + ("output = " + LogPath(suffix) + "\n") + Concat(h[4..])
  {
    var h := HeadLines(suffix);
    ConcatFour(h);
    Regroup5(h[0], h[1], h[2], h[3], Concat(h[4..]));
  }

  // ---------------------------------------------------------------------------
  // create_tun_vpn: the DNS server list
  // ---------------------------------------------------------------------------

  /** `[p.strip() for p in parts if p.strip()]`. */
  function Entries(parts: seq<string>): (r: seq<string>)
    ensures |r| <= |parts|
    ensures forall k :: 0 <= k < |r| ==> r[k] != [] && Trimmed(r[k])
  {
    if parts == [] then []
    else
      var s := Strip(parts[0]);
      var more := Entries(parts[1..]);
      StripKeeps(parts[0]);
      if s != [] then [s] + more else more
  }

  /** The servers named in the comma-separated setting, each stripped, empty
      ones dropped, in the order given. */
  function DnsList(setting: string): (r: seq<string>)
    ensures forall k :: 0 <= k < |r| ==> r[k] != [] && Trimmed(r[k])
  {
    Entries(Split(setting, ','))
  }

  function PrimaryDns(setting: string): string
  {
    var l := DnsList(setting);
    if |l| > 0 then l[0] else DefaultPrimaryDns
  }

  function SecondaryDns(setting: string): string
  {
    var l := DnsList(setting);
    if |l| > 1 then l[1] else DefaultSecondaryDns
  }

  /** Each entry with a space in front, as `", ".join` puts all but the first. */
  function Spaced(es: seq<string>): (r: seq<string>)
    ensures |r| == |es|
  {
    if es == [] then [] else [" " + es[0]] + Spaced(es[1..])
  }

  lemma SpacedAt(es: seq<string>, k: nat)
    requires k < |es|
    ensures Spaced(es)[k] == " " + es[k]
  {
    if k > 0 {
      SpacedAt(es[1..], k - 1);
    }
  }

  /** A space in front of a join is a space in front of its first part. */
  lemma SpaceJoin(ps: seq<string>)
    requires ps != []
    ensures " " + Join(ps, ",") == Join([" " + ps[0]] + ps[1..], ",")
  {
    var qs := [" " + ps[0]] + ps[1..];
    assert qs[1..] == ps[1..];
  }

  /** `", ".join(es)` is `",".join` of the entries with the spaces moved into them. */
  lemma {:induction false} JoinCommaSpace(es: seq<string>)
    requires es != []
    ensures Join(es, ", ") == Join([es[0]] + Spaced(es[1..]), ",")
  {
    if |es| > 1 {
      JoinCommaSpace(es[1..]);
      var ps := [es[1]] + Spaced(es[2..]);
      SpaceJoin(ps);
      assert es[1..][1..] == es[2..];
      assert Spaced(es[1..]) == [" " + ps[0]] + ps[1..];
      var qs := [es[0]] + Spaced(es[1..]);
      assert qs[1..] == Spaced(es[1..]);
      assert Join(es, ", ") == es[0] + "," + (" " + Join(es[1..], ", "));
    } else {
      assert Spaced(es[1..]) == [];
    }
  }

  /** Stripping the spaced entries gives the entries back. */
  lemma {:induction false} EntriesSpaced(es: seq<string>)
    requires forall k :: 0 <= k < |es| ==> es[k] != [] && Trimmed(es[k])
    ensures Entries(Spaced(es)) == es
  {
    if es != [] {
      StripLeadingSpace(" ", es[0]);
      assert Spaced(es) == [" " + es[0]] + Spaced(es[1..]);
      EntriesStrip(" " + es[0], Spaced(es[1..]));
      EntriesSpaced(es[1..]);
      assert es == [es[0]] + es[1..];
    }
  }

  /** A part that strips to something non-empty contributes that. */
  lemma EntriesStrip(p: string, parts: seq<string>)
    requires Strip(p) != []
    ensures Entries([p] + parts) == [Strip(p)] + Entries(parts)
  {
    assert ([p] + parts)[1..] == parts;
  }

  /** One entry that strips to itself, in front of the rest. */
  lemma EntriesCons(e: string, parts: seq<string>)
    requires e != [] && Trimmed(e)
    ensures Entries([e] + parts) == [e] + Entries(parts)
  {
    StripTrimmed(e);
    EntriesStrip(e, parts);
  }

  /** Every part strips to nothing. */
  predicate AllBlank(parts: seq<string>)
  {
    forall k :: 0 <= k < |parts| ==> Strip(parts[k]) == []
  }

  /** The list comprehension keeps nothing exactly when every part strips
      to nothing. */
  lemma {:induction false} EntriesEmpty(parts: seq<string>)
    ensures Entries(parts) == [] <==> AllBlank(parts)
  {
    if parts != [] {
      EntriesEmpty(parts[1..]);
      if Strip(parts[0]) == [] {
        forall k | 0 <= k < |parts| && k > 0
          ensures parts[k] == parts[1..][k - 1]
        {
        }
      }
    }
  }

  /** A setting lists no server exactly when every comma-separated part of
      it is blank (an empty setting, only spaces, only commas); then the
      defaults 8.8.8.8 and 8.8.4.4 are used. */
  lemma NoServers(setting: string)
    ensures DnsList(setting) == [] <==> AllBlank(Split(setting, ','))
    ensures AllBlank(Split(setting, ',')) ==>
      PrimaryDns(setting) == "8.8.8.8" && SecondaryDns(setting) == "8.8.4.4"
  {
    EntriesEmpty(Split(setting, ','));
  }

  /** How `split(',')` cuts a list written out with `", ".join`. */
  lemma DnsParts(servers: seq<string>)
    requires servers != []
    requires forall k :: 0 <= k < |servers| ==> ',' !in servers[k]
    ensures Split(Join(servers, ", "), ',') == [servers[0]] + Spaced(servers[1..])
  {
    var parts := [servers[0]] + Spaced(servers[1..]);
    JoinCommaSpace(servers);
    forall k | 0 <= k < |parts|
      ensures ',' !in parts[k]
    {
      if k > 0 {
        SpacedAt(servers[1..], k - 1);
        assert parts[k] == Spaced(servers[1..])[k - 1];
        assert parts[k] == " " + servers[k];
      }
    }
    SplitJoin(parts, ',');
  }

  /** Round trip: a list of servers written out as `", ".join(servers)`
      parses back to the same list, in the same order, when no server is
      empty, has surrounding whitespace or contains a comma. */
  lemma DnsRoundTrip(servers: seq<string>)
    requires forall k :: 0 <= k < |servers| ==> servers[k] != [] && Trimmed(servers[k]) && ',' !in servers[k]
    ensures DnsList(Join(servers, ", ")) == servers
  {
    if servers == [] {
      assert Split([], ',') == [[]];
      assert Strip([]) == [];
      NoServers([]);
    } else {
      DnsParts(servers);
      DnsEntries(servers);
    }
  }

  lemma DnsEntries(servers: seq<string>)
    requires servers != []
    requires forall k :: 0 <= k < |servers| ==> servers[k] != [] && Trimmed(servers[k])
    ensures Entries([servers[0]] + Spaced(servers[1..])) == servers
  {
    EntriesCons(servers[0], Spaced(servers[1..]));
    var later := servers[1..];
    assert forall k :: 0 <= k < |later| ==> later[k] == servers[k + 1];
    EntriesSpaced(later);
    assert servers == [servers[0]] + later;
  }

  /** The primary and secondary servers are the first two listed, with the
      defaults standing in for missing ones. */
  lemma DnsServersChosen(servers: seq<string>)
    requires forall k :: 0 <= k < |servers| ==> servers[k] != [] && Trimmed(servers[k]) && ',' !in servers[k]
    ensures PrimaryDns(Join(servers, ", ")) == if |servers| > 0 then servers[0] else "8.8.8.8"
    ensures SecondaryDns(Join(servers, ", ")) == if |servers| > 1 then servers[1] else "8.8.4.4"
  {
    DnsRoundTrip(servers);
  }
}
