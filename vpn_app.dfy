// The connection state of the SSH VPN Pro window with its widgets
// abstracted away: the profile table, the selected profile and tab, the
// checks `connect` makes before it starts a connection thread, the flags of
// the big connect button, and the arithmetic behind the uptime and data
// usage read-outs.

module VpnApp {
  import opened PyText
  import VpnCore

  // ---------------------------------------------------------------------------
  // Profiles
  // ---------------------------------------------------------------------------

  /** The fields of a profile, named in the profile file `protocol`, `host`,
      `port`, `username`, `auth_method`, `password`, `ssh_key_path`,
      `sni_domain`, `tls_port`, `udpgw_port` and `dns_servers`. */
  datatype Field =
    | Protocol | Host | Port | Username | AuthMethod | Password
    | SshKeyPath | SniDomain | TlsPort | UdpgwPort | DnsServers

  /** A saved profile: field to text, as stored in the profile file. A field
      may be missing from a profile read from the file. */
  type Profile = map<Field, string>

  /** `profile.get(key, default)`. */
  function Get(p: Profile, key: Field, default: string): string
  {
    if key in p then p[key] else default
  }

  /** Every field: the keys `save_and_close` writes. */
  predicate AllFields(p: Profile)
  {
    && Protocol in p && Host in p && Port in p && Username in p && AuthMethod in p
    && Password in p && SshKeyPath in p && SniDomain in p && TlsPort in p
    && UdpgwPort in p && DnsServers in p
  }

  /** What the profile editor's fields hold when Save is pressed. */
  datatype EditorFields = EditorFields(
    protocol: string, host: string, port: string, username: string,
    authMethod: string, password: string, sshKey: string, sni: string,
    tlsPort: string, udpgw: string, dns: string)

  /** The profile holding the given field values. */
  function Stored(protocol: string, host: string, port: string, username: string,
                  authMethod: string, password: string, sshKeyPath: string,
                  sniDomain: string, tlsPort: string, udpgwPort: string, dns: string): (p: Profile)
    ensures AllFields(p)
    ensures && p[Protocol] == protocol && p[Host] == host && p[Port] == port
            && p[Username] == username && p[AuthMethod] == authMethod
            && p[Password] == password && p[SshKeyPath] == sshKeyPath
            && p[SniDomain] == sniDomain && p[TlsPort] == tlsPort
            && p[UdpgwPort] == udpgwPort && p[DnsServers] == dns
  {
    map[
      Protocol := protocol, Host := host, Port := port, Username := username,
      AuthMethod := authMethod, Password := password, SshKeyPath := sshKeyPath,
      SniDomain := sniDomain, TlsPort := tlsPort, UdpgwPort := udpgwPort,
      DnsServers := dns]
  }

  /** The profile `save_and_close` stores: every field stripped of surrounding
      whitespace except the two chosen from drop-down lists. */
  function ProfileEntry(f: EditorFields): Profile
  {
    Stored(f.protocol, Strip(f.host), Strip(f.port), Strip(f.username), f.authMethod,
      Strip(f.password), Strip(f.sshKey), Strip(f.sni), Strip(f.tlsPort),
      Strip(f.udpgw), Strip(f.dns))
  }

  /** The stored profile has every field; the two drop-down choices are kept
      as chosen and every typed field is free of surrounding whitespace. */
  lemma ProfileEntryFields(f: EditorFields)
    ensures var p := ProfileEntry(f);
      && AllFields(p)
      && p[Protocol] == f.protocol && p[AuthMethod] == f.authMethod
      && Trimmed(p[Host]) && Trimmed(p[Port]) && Trimmed(p[Username])
      && Trimmed(p[Password]) && Trimmed(p[SshKeyPath]) && Trimmed(p[SniDomain])
      && Trimmed(p[TlsPort]) && Trimmed(p[UdpgwPort]) && Trimmed(p[DnsServers])
  {
    Trims(f.host); Trims(f.port); Trims(f.username); Trims(f.password);
    Trims(f.sshKey); Trims(f.sni); Trims(f.tlsPort); Trims(f.udpgw); Trims(f.dns);
  }

  lemma Trims(s: string)
    ensures Trimmed(Strip(s))
  {
    StripKeeps(s);
  }

  /** The name a profile is saved under: the name it was opened with, or else
      the answer to the name dialog (`None` when the dialog is cancelled).
      No name means nothing is saved. */
  function SavedName(editing: string, asked: Option<string>): (name: Option<string>)
    ensures name.Some? ==> name.value != []
    ensures name.None? <==> editing == [] && (asked.None? || asked.value == [])
    ensures editing != [] ==> name == Some(editing)
    ensures editing == [] && name.Some? ==> asked == name
  {
    if editing != [] then Some(editing)
    else if asked.Some? && asked.value != [] then asked
    else None
  }

  // ---------------------------------------------------------------------------
  // The checks `connect` makes
  // ---------------------------------------------------------------------------

  /** The values `connect` reads from the selected profile and hands to the
      connection thread. */
  datatype ConnectRequest = ConnectRequest(
    protocol: string, host: string, port: string, username: string,
    authMethod: string, password: string, sshKeyPath: string,
    udpgwPort: string, sniDomain: string, tlsPort: string, dns: string)

  /** The reads of `connect`, each with its default for a missing key; all
      but the protocol and the authentication method are stripped. */
  function ReadRequest(p: Profile): ConnectRequest
  {
    ConnectRequest(
      Get(p, Protocol, "SSH"),
      Strip(Get(p, Host, "")),
      Strip(Get(p, Port, "22")),
      Strip(Get(p, Username, "")),
      Get(p, AuthMethod, "Password"),
      Strip(Get(p, Password, "")),
      Strip(Get(p, SshKeyPath, "")),
      Strip(Get(p, UdpgwPort, "7300")),
      Strip(Get(p, SniDomain, "www.google.com")),
      Strip(Get(p, TlsPort, "443")),
      Strip(Get(p, DnsServers, "8.8.8.8, 8.8.4.4")))
  }

  /** Everything a connection needs is filled in. */
  predicate Complete(r: ConnectRequest)
  {
    && r.host != [] && r.port != [] && r.username != []
    && (r.authMethod == "Password" ==> r.password != [])
    && (r.authMethod == "SSH Key" ==> r.sshKeyPath != [])
    && (r.protocol == "SSH-TLS" ==> r.sniDomain != [] && r.tlsPort != [])
  }

  /** Why `connect` stops early (each reason is one error dialog, or silence
      for an existing connection). */
  datatype Refusal =
    | AlreadyConnected
    | NoProfile
    | MissingServer
    | MissingPassword
    | MissingKeyPath
    | MissingTls

  /** The first check of `connect`'s validation that fails, if any. */
  function Problem(r: ConnectRequest): (why: Option<Refusal>)
    ensures why.None? <==> Complete(r)
    ensures why == Some(MissingServer) <==> r.host == [] || r.port == [] || r.username == []
    ensures why == Some(MissingPassword) ==> r.authMethod == "Password" && r.password == []
    ensures why == Some(MissingKeyPath) ==> r.authMethod == "SSH Key" && r.sshKeyPath == []
    ensures why == Some(MissingTls) ==> r.protocol == "SSH-TLS" && (r.sniDomain == [] || r.tlsPort == [])
    ensures why != Some(AlreadyConnected) && why != Some(NoProfile)
  {
    if r.host == [] || r.port == [] || r.username == [] then Some(MissingServer)
    else if r.authMethod == "Password" && r.password == [] then Some(MissingPassword)
    else if r.authMethod == "SSH Key" && r.sshKeyPath == [] then Some(MissingKeyPath)
    else if r.protocol == "SSH-TLS" && (r.sniDomain == [] || r.tlsPort == []) then Some(MissingTls)
    else None
  }

  datatype Decision = Refuse(why: Refusal) | Start(request: ConnectRequest)

  /** What `connect` decides from the connection flag, the selected profile's
      name (an empty name counts as none) and the profile table. */
  function Decide(connected: bool, current: Option<string>, profiles: map<string, Profile>): Decision
  {
    if connected then Refuse(AlreadyConnected)
    else if current.None? || current.value == [] || current.value !in profiles then Refuse(NoProfile)
    else
      var r := ReadRequest(profiles[current.value]);
      match Problem(r)
      case Some(why) => Refuse(why)
      case None => Start(r)
  }

  /** `connect` refuses while connected, then without a usable selected
      profile, then for the first missing setting; it starts exactly when
      none of these applies, with the request read from the selected profile. */
  lemma DecideCases(connected: bool, current: Option<string>, profiles: map<string, Profile>)
    ensures var d := Decide(connected, current, profiles);
      && (d == Refuse(AlreadyConnected) <==> connected)
      && (d == Refuse(NoProfile) <==>
           !connected && (current.None? || current.value == [] || current.value !in profiles))
      && (d.Start? <==>
           && !connected && current.Some? && current.value != [] && current.value in profiles
           && Complete(ReadRequest(profiles[current.value])))
      && (d.Start? ==> d.request == ReadRequest(profiles[current.value]))
  {
  }

  /** A saved profile reads back as exactly what was typed into the editor,
      stripped: the stripping `connect` does again changes nothing. */
  lemma SavedProfileRequest(f: EditorFields)
    ensures ReadRequest(ProfileEntry(f)) == ConnectRequest(
      f.protocol, Strip(f.host), Strip(f.port), Strip(f.username), f.authMethod,
      Strip(f.password), Strip(f.sshKey), Strip(f.udpgw), Strip(f.sni),
      Strip(f.tlsPort), Strip(f.dns))
  {
    StripIdempotent(f.host); StripIdempotent(f.port); StripIdempotent(f.username);
    StripIdempotent(f.password); StripIdempotent(f.sshKey); StripIdempotent(f.udpgw);
    StripIdempotent(f.sni); StripIdempotent(f.tlsPort); StripIdempotent(f.dns);
  }

  /** Saving a profile and then pressing connect (while disconnected) starts
      a connection exactly when the saved fields, stripped, are complete. */
  lemma SavedProfileConnects(f: EditorFields, name: string, profiles: map<string, Profile>)
    ensures var d := Decide(false, Some(name), profiles[name := ProfileEntry(f)]);
      d.Start? <==> name != [] && Complete(ReadRequest(ProfileEntry(f)))
    ensures var d := Decide(false, Some(name), profiles[name := ProfileEntry(f)]);
      d.Start? ==> d.request.host == Strip(f.host) && d.request.password == Strip(f.password)
  {
    SavedProfileRequest(f);
  }

  // ---------------------------------------------------------------------------
  // Uptime and data usage
  // ---------------------------------------------------------------------------

  datatype Clock = Clock(hours: int, minutes: int, seconds: int)

  /** `h = e // 3600`, `m = (e % 3600) // 60`, `s = e % 60`. Python's `//`
      and `%` by a positive number agree with Dafny's. */
  function Uptime(elapsed: int): Clock
  {
    Clock(elapsed / 3600, (elapsed % 3600) / 60, elapsed % 60)
  }

  /** Minutes and seconds are below 60 and the fields recombine to the
      elapsed seconds; hours are not negative for a non-negative time. */
  lemma UptimeFields(elapsed: int)
    ensures var c := Uptime(elapsed);
      && 0 <= c.minutes < 60 && 0 <= c.seconds < 60
      && 3600 * c.hours + 60 * c.minutes + c.seconds == elapsed
      && (elapsed >= 0 ==> c.hours >= 0)
  {
    var r := elapsed % 3600;
    assert elapsed == 3600 * (elapsed / 3600) + r;
    assert r == 60 * (r / 60) + r % 60;
    ModOfMod(elapsed);
  }

  lemma ModOfMod(e: int)
    ensures (e % 3600) % 60 == e % 60
  {
    var q := e / 3600;
    var r := e % 3600;
    assert e == 60 * (60 * q) + r;
    var k := r / 60;
    assert r == 60 * k + r % 60 && 0 <= r % 60 < 60;
    assert e == 60 * (60 * q + k) + r % 60;
    DivModUnique(e, 60, 60 * q + k, r % 60);
  }

  lemma DivModUnique(a: int, b: int, q: int, r: int)
    requires b > 0 && 0 <= r < b && a == b * q + r
    ensures a / b == q && a % b == r
  {
    var q', r' := a / b, a % b;
    assert a == b * q' + r' && 0 <= r' < b;
    if q > q' {
      MulMono(b, q - q');
    } else if q < q' {
      MulMono(b, q' - q);
    }
  }

  /** A positive multiple of `b` is at least `b` (a nonlinear step the
      solver does not take on its own inside `DivModUnique`). */
  lemma MulMono(b: int, d: int)
    requires b > 0 && d >= 1
    ensures b * d >= b
  {
  }

  /** The decomposition is the only one with minutes and seconds below 60. */
  lemma UptimeUnique(elapsed: int, c: Clock)
    requires 0 <= c.minutes < 60 && 0 <= c.seconds < 60
    requires 3600 * c.hours + 60 * c.minutes + c.seconds == elapsed
    ensures c == Uptime(elapsed)
  {
    var u := Uptime(elapsed);
    UptimeFields(elapsed);
    DivModUnique(elapsed, 3600, c.hours, 60 * c.minutes + c.seconds);
    DivModUnique(elapsed, 3600, u.hours, 60 * u.minutes + u.seconds);
    DivModUnique(60 * c.minutes + c.seconds, 60, c.minutes, c.seconds);
    DivModUnique(60 * u.minutes + u.seconds, 60, u.minutes, u.seconds);
  }

  /** `f"{n:02d}"`: the numeral, with a zero in front of a single digit. */
  function Padded(n: int): string
  {
    if 0 <= n < 10 then "0" + NatText(n) else IntText(n)
  }

  /** The padded form has at least two characters, exactly two below 100,
      and for a non-negative number reads back as that number. */
  lemma PaddedDigits(n: int)
    ensures |Padded(n)| >= 2
    ensures n >= 0 ==> AllDigits(Padded(n)) && DigitsValue(Padded(n)) == n
    ensures 0 <= n < 100 ==> |Padded(n)| == 2
  {
    if 0 <= n < 10 {
      LeadingZero(NatText(n));
    } else if n >= 10 {
      LongNumeral(n);
    }
  }

  lemma LongNumeral(n: nat)
    ensures n >= 10 ==> |NatText(n)| >= 2
    ensures 10 <= n < 100 ==> |NatText(n)| == 2
  {
    if n >= 10 {
      assert NatText(n) == NatText(n / 10) + [DigitChar(n % 10)];
    }
  }

  /** A zero in front of a numeral does not change its value. */
  lemma {:induction false} LeadingZero(s: string)
    requires AllDigits(s)
    ensures AllDigits("0" + s) && DigitsValue("0" + s) == DigitsValue(s)
    decreases |s|
  {
    if s != [] {
      var init := s[..|s| - 1];
      assert ("0" + s)[..|"0" + s| - 1] == "0" + init;
      LeadingZero(init);
    }
  }

  /** The uptime read-out `f"{h:02d}:{m:02d}:{s:02d}"`. */
  function ClockText(elapsed: int): string
  {
    var c := Uptime(elapsed);
    Padded(c.hours) + ":" + Padded(c.minutes) + ":" + Padded(c.seconds)
  }

  /** The read-out, split at its colons, gives back the elapsed seconds: the
      hour field in full and two digits each for minutes and seconds. */
  lemma ClockTextReads(elapsed: int)
    requires elapsed >= 0
    ensures var parts := Split(ClockText(elapsed), ':');
      && |parts| == 3 && |parts[1]| == 2 && |parts[2]| == 2
      && AllDigits(parts[0]) && AllDigits(parts[1]) && AllDigits(parts[2])
      && 3600 * DigitsValue(parts[0]) + 60 * DigitsValue(parts[1]) + DigitsValue(parts[2]) == elapsed
  {
    var c := Uptime(elapsed);
    UptimeFields(elapsed);
    PaddedDigits(c.hours);
    PaddedDigits(c.minutes);
    PaddedDigits(c.seconds);
    var fields := [Padded(c.hours), Padded(c.minutes), Padded(c.seconds)];
    assert Join(fields, [':']) == ClockText(elapsed) by {
      var a, b, d := Padded(c.hours), Padded(c.minutes), Padded(c.seconds);
      assert [b, d][1..] == [d];
      assert Join([b, d], [':']) == b + [':'] + d;
      assert fields[1..] == [b, d];
      assert Join(fields, [':']) == a + [':'] + (b + [':'] + d);
    }
    forall k | 0 <= k < 3
      ensures ':' !in fields[k]
    {
      NoColon(fields[k]);
    }
    SplitJoin(fields, ':');
  }

  lemma NoColon(s: string)
    requires AllDigits(s)
    ensures ':' !in s
  {
    forall i | 0 <= i < |s|
      ensures s[i] != ':'
    {
      assert IsDigit(s[i]);
    }
  }

  /** The units of the data read-out. */
  datatype Unit = B | KB | MB | GB

  function Scale(u: Unit): nat
  {
    match u
    case B => 1
    case KB => 1024
    case MB => 1024 * 1024
    case GB => 1024 * 1024 * 1024
  }

  /** The unit the data read-out uses for `total` bytes: the largest one not
      above the total, bytes for anything under a kilobyte (a negative total
      included), gigabytes from there on. */
  function UsageUnit(total: int): (u: Unit)
    ensures u == B <==> total < 1024
    ensures u != B ==> Scale(u) <= total
    ensures u != GB ==> total < 1024 * Scale(u)
  {
    if total < 1024 then B
    else if total < 1024 * 1024 then KB
    else if total < 1024 * 1024 * 1024 then MB
    else GB
  }

  function Rank(u: Unit): nat
  {
    match u
    case B => 0
    case KB => 1
    case MB => 2
    case GB => 3
  }

  /** More traffic never shows in a smaller unit. */
  lemma UsageUnitMonotone(t1: int, t2: int)
    requires t1 <= t2
    ensures Rank(UsageUnit(t1)) <= Rank(UsageUnit(t2))
  {
  }

  /** What the data read-out shows: a literal text (the exact byte count, or
      the reset text), or a total rendered in a larger unit with one or two
      decimals. */
  datatype DataLabel = Shown(text: string) | Scaled(total: int, unit: Unit)

  /** The data read-out for `total` bytes. */
  function DataLabelFor(total: int): DataLabel
  {
    var u := UsageUnit(total);
    if u == B then Shown(IntText(total) + " B") else Scaled(total, u)
  }

  /** The byte count is shown as such below 1024 bytes and reads back as the
      exact total; from 1024 bytes on the total is scaled to its unit. */
  lemma DataLabelReads(total: int)
    ensures var l := DataLabelFor(total);
      && (l.Shown? <==> total < 1024)
      && (l.Shown? ==>
           && |l.text| >= 2 && l.text[|l.text| - 2..] == " B"
           && ParseInt(l.text[..|l.text| - 2]) == Some(total))
      && (l.Scaled? ==> l.total == total && l.unit == UsageUnit(total) && l.unit != B)
  {
    if total < 1024 {
      IntTextRoundTrip(total);
      var t := IntText(total) + " B";
      assert t[..|t| - 2] == IntText(total);
    }
  }

  // ---------------------------------------------------------------------------
  // The connect button
  // ---------------------------------------------------------------------------

  /** The two flags of the big round connect button. */
  class ConnectButton {
    var isConnecting: bool
    var isConnected: bool

    /** Never both connecting and connected. */
    predicate Exclusive()
      reads this
    {
      !(isConnecting && isConnected)
    }

    constructor ()
      ensures !isConnecting && !isConnected
    {
      isConnecting := false;
      isConnected := false;
    }

    method SetConnecting()
      modifies this
      ensures isConnecting && !isConnected && Exclusive()
    {
      isConnecting := true;
      isConnected := false;
    }

    method SetConnected()
      modifies this
      ensures !isConnecting && isConnected && Exclusive()
    {
      isConnecting := false;
      isConnected := true;
    }

    method SetDisconnected()
      modifies this
      ensures !isConnecting && !isConnected && Exclusive()
    {
      isConnecting := false;
      isConnected := false;
    }
  }

  // ---------------------------------------------------------------------------
  // The application
  // ---------------------------------------------------------------------------

  /** The connect button agrees with the connection: it pulses while exactly
      one attempt is under way, shows connected exactly when the window is
      connected, and no attempt runs beside a live connection. */
  predicate InSync(connected: bool, pending: nat, connecting: bool, shownConnected: bool)
  {
    && pending <= 1
    && (connecting <==> pending == 1)
    && (shownConnected <==> connected)
    && (connected ==> pending == 0)
  }

  /** The tabs of the tab bar, keyed `home`, `config`, `logs` and `about`. */
  datatype Tab = Home | Config | Logs | About

  /** A style for every tab button. */
  predicate AllTabs(m: map<Tab, bool>)
  {
    Home in m && Config in m && Logs in m && About in m
  }

  /** The tab bar: the recorded tab, which buttons carry the highlighted
      style, and the tab whose frame is on screen. */
  datatype TabBar = TabBar(current: Tab, highlighted: map<Tab, bool>, shown: Tab)

  /** The read-outs of the home tab. */
  datatype Dashboard = Dashboard(
    status: string, subtitle: string, time: string, data: DataLabel,
    server: string, udp: string)

  /** The read-outs as the home tab first shows them. */
  function IdleDashboard(): Dashboard
  {
    Dashboard("Not Connected", "Tap to connect", "00:00:00", Shown("0 MB"), "None", "Inactive")
  }

  /** The read-outs after a tick `elapsed` seconds into the connection,
      with `usage` bytes moved since it came up. */
  function Counted(d: Dashboard, elapsed: int, usage: int): Dashboard
  {
    d.(time := ClockText(elapsed), data := DataLabelFor(usage))
  }

  /** What the uptime timer measures from: the connection's start time in
      whole seconds, and the interface counters captured when it came up. */
  datatype Session = Session(startTime: Option<int>, initialRx: int, initialTx: int)

  class App {
    var connected: bool
    var profiles: map<string, Profile>
    var currentProfile: Option<string>
    var profileText: string
    var tabs: TabBar
    const button: ConnectButton
    /** Connection threads started so far, and how many of them have not yet
        reported success or failure. */
    var started: seq<ConnectRequest>
    var pending: nat
    var session: Session
    var dash: Dashboard

    predicate Synced()
      reads this, button
    {
      InSync(connected, pending, button.isConnecting, button.isConnected)
    }

    /** The window after `__init__`: the profiles loaded from the profile
        file (an empty table when it is missing or unreadable), nothing
        selected, and the home tab shown. */
    constructor (loaded: map<string, Profile>)
      ensures !connected && profiles == loaded && currentProfile == None
      ensures profileText == "No profile selected"
      ensures tabs.current == Home && tabs.shown == Home && AllTabs(tabs.highlighted)
      ensures forall k :: k in tabs.highlighted ==> (tabs.highlighted[k] <==> k == Home)
      ensures started == [] && pending == 0 && session.startTime == None
      ensures dash == IdleDashboard()
      ensures fresh(button) && Synced()
    {
      connected := false;
      profiles := loaded;
      currentProfile := None;
      profileText := "No profile selected";
      tabs := TabBar(Home, map[Home := true, Config := false, Logs := false, About := false], Home);
      button := new ConnectButton();
      started := [];
      pending := 0;
      session := Session(None, 0, 0);
      dash := IdleDashboard();
    }

    /** `save_and_close`: stores the editor's fields under the profile's name,
        overwriting any profile of that name, and selects it; with no name
        nothing changes. */
    method SaveProfile(editing: string, asked: Option<string>, f: EditorFields)
      modifies this
      ensures var name := SavedName(editing, asked);
        name.Some? ==>
          && profiles == old(profiles)[name.value := ProfileEntry(f)]
          && currentProfile == name
          && profileText == "📁 " + name.value
      ensures SavedName(editing, asked).None? ==>
        profiles == old(profiles) && currentProfile == old(currentProfile) && profileText == old(profileText)
      ensures connected == old(connected) && tabs == old(tabs)
      ensures started == old(started) && pending == old(pending)
      ensures session == old(session) && dash == old(dash)
    {
      var name := SavedName(editing, asked);
      if name.Some? {
        StoreAndSelect(name.value, ProfileEntry(f));
      }
    }

    /** Stores `entry` under `name` and selects it. */
    method StoreAndSelect(name: string, entry: Profile)
      modifies this
      ensures profiles == old(profiles)[name := entry]
      ensures currentProfile == Some(name) && profileText == "📁 " + name
      ensures connected == old(connected) && tabs == old(tabs)
      ensures started == old(started) && pending == old(pending)
      ensures session == old(session) && dash == old(dash)
    {
      profiles := profiles[name := entry];
      currentProfile := Some(name);
      profileText := "📁 " + name;
    }

    /** A click on a profile card (`select_this_profile`): the card's name
        becomes the selected profile and the label shows it; the table and
        everything else stay as they were. */
    method SelectProfile(name: string)
      modifies this
      ensures currentProfile == Some(name) && profileText == "📁 " + name
      ensures profiles == old(profiles)
      ensures connected == old(connected) && tabs == old(tabs)
      ensures started == old(started) && pending == old(pending)
      ensures session == old(session) && dash == old(dash)
    {
      currentProfile := Some(name);
      profileText := "📁 " + name;
    }

    /** `delete_profile_card`: once confirmed, removes the named profile and
        no other, and clears the selection if it was the selected one. */
    method DeleteProfile(name: string, confirmed: bool)
      modifies this
      ensures var removes := confirmed && name in old(profiles);
        && profiles == (if removes then old(profiles) - {name} else old(profiles))
        && currentProfile == (if removes && old(currentProfile) == Some(name) then None else old(currentProfile))
        && profileText == (if removes && old(currentProfile) == Some(name) then "No profile selected" else old(profileText))
      ensures forall k :: k != name ==> (k in profiles <==> k in old(profiles))
      ensures confirmed ==> name !in profiles
      ensures forall k :: k in profiles ==> profiles[k] == old(profiles)[k]
      ensures currentProfile == None <==>
        old(currentProfile) == None || (confirmed && name in old(profiles) && old(currentProfile) == Some(name))
      ensures connected == old(connected) && tabs == old(tabs)
      ensures started == old(started) && pending == old(pending)
      ensures session == old(session) && dash == old(dash)
    {
      if !confirmed {
        return;
      }
      if name in profiles {
        profiles := profiles - {name};
        if currentProfile == Some(name) {
          currentProfile := None;
          profileText := "No profile selected";
        }
      }
    }

    /** `switch_tab`: hides every frame, gives the highlighted style to the
        button of `tab` and the plain style to every other one, shows the
        frame of `tab`, and records `tab`. */
    method SwitchTab(tab: Tab)
      modifies this
      ensures tabs.current == tab && tabs.shown == tab
      ensures tabs.highlighted.Keys == old(tabs.highlighted).Keys
      ensures forall k :: k in tabs.highlighted ==> (tabs.highlighted[k] <==> k == tab)
      ensures connected == old(connected) && profiles == old(profiles)
      ensures currentProfile == old(currentProfile) && profileText == old(profileText)
      ensures started == old(started) && pending == old(pending)
      ensures session == old(session) && dash == old(dash)
    {
      var styles := tabs.highlighted;
      var todo := styles.Keys;
      while todo != {}
        invariant todo <= styles.Keys && styles.Keys == tabs.highlighted.Keys
        invariant forall k :: k in styles && k !in todo ==> (styles[k] <==> k == tab)
        decreases todo
      {
        var k :| k in todo;
        styles := styles[k := k == tab];
        todo := todo - {k};
      }
      tabs := TabBar(tab, styles, tab);
    }

    /** `connect`: when `Decide` says start, shows the connecting state and
        starts a connection thread with the request. `guarded` adds the check
        of the button's connecting flag that the method lacks (false models
        the method as written). */
    method Connect(guarded: bool)
      modifies this, button
      ensures var blocked := guarded && old(button.isConnecting);
        var d := Decide(old(connected), old(currentProfile), old(profiles));
        if !blocked && d.Start? then
          && started == old(started) + [d.request] && pending == old(pending) + 1
          && dash == old(dash).(status := "Connecting...", subtitle := "Please wait...")
          && button.isConnecting && !button.isConnected
        else
          && started == old(started) && pending == old(pending) && dash == old(dash)
          && button.isConnecting == old(button.isConnecting)
          && button.isConnected == old(button.isConnected)
      ensures connected == old(connected) && profiles == old(profiles)
      ensures currentProfile == old(currentProfile) && profileText == old(profileText)
      ensures tabs == old(tabs) && session == old(session)
      ensures guarded && old(InSync(connected, pending, button.isConnecting, button.isConnected)) ==> Synced()
    {
      if guarded && button.isConnecting {
        return;
      }
      var d := Decide(connected, currentProfile, profiles);
      if d.Start? {
        StartConnecting(d.request);
      }
    }

    /** The part of `connect` after validation: the connecting state is
        shown and a connection thread is started with the request. */
    method StartConnecting(request: ConnectRequest)
      modifies this, button
      ensures started == old(started) + [request] && pending == old(pending) + 1
      ensures dash == old(dash).(status := "Connecting...", subtitle := "Please wait...")
      ensures button.isConnecting && !button.isConnected
      ensures connected == old(connected) && profiles == old(profiles)
      ensures currentProfile == old(currentProfile) && profileText == old(profileText)
      ensures tabs == old(tabs) && session == old(session)
    {
      dash := dash.(status := "Connecting...", subtitle := "Please wait...");
      button.SetConnecting();
      started := started + [request];
      pending := pending + 1;
    }

    /** `_connection_success`: a connection thread reports that the tunnel is
        up, at time `now`, with the interface counters `rx` and `tx`. */
    method ConnectionSucceeded(host: string, now: int, rx: int, tx: int)
      requires pending > 0
      modifies this, button
      ensures connected && session == Session(Some(now), rx, tx)
      ensures pending == old(pending) - 1 && started == old(started)
      ensures dash == old(dash).(status := "Connected", subtitle := "Secure tunnel active",
        server := host[..if |host| < 20 then |host| else 20],
        udp := UdpActiveText(old(currentProfile), old(profiles)))
      ensures !button.isConnecting && button.isConnected
      ensures profiles == old(profiles) && currentProfile == old(currentProfile)
      ensures profileText == old(profileText) && tabs == old(tabs)
      ensures old(InSync(connected, pending, button.isConnecting, button.isConnected)) ==> Synced()
    {
      connected := true;
      session := Session(Some(now), rx, tx);
      dash := dash.(status := "Connected", subtitle := "Secure tunnel active",
        server := host[..if |host| < 20 then |host| else 20],
        udp := UdpActiveText(currentProfile, profiles));
      button.SetConnected();
      pending := pending - 1;
    }

    /** `_connection_failed`: a connection thread reports failure. The
        connection flag is left as it is. */
    method ConnectionFailed()
      requires pending > 0
      modifies this, button
      ensures pending == old(pending) - 1 && started == old(started)
      ensures dash == old(dash).(status := "Failed", subtitle := "Check credentials")
      ensures !button.isConnecting && !button.isConnected
      ensures connected == old(connected) && session == old(session)
      ensures profiles == old(profiles) && currentProfile == old(currentProfile)
      ensures profileText == old(profileText) && tabs == old(tabs)
      ensures old(InSync(connected, pending, button.isConnecting, button.isConnected)) ==> Synced()
    {
      dash := dash.(status := "Failed", subtitle := "Check credentials");
      button.SetDisconnected();
      pending := pending - 1;
    }

    /** The state reset at the end of `disconnect`: not connected, no start
        time, the button idle and the read-outs as the window first shows
        them. */
    method Disconnect()
      modifies this, button
      ensures !connected && session == old(session).(startTime := None)
      ensures !button.isConnecting && !button.isConnected
      ensures dash == IdleDashboard()
      ensures pending == old(pending) && started == old(started)
      ensures profiles == old(profiles) && currentProfile == old(currentProfile)
      ensures profileText == old(profileText) && tabs == old(tabs)
      ensures old(InSync(connected, pending, button.isConnecting, button.isConnected)) && pending == 0 ==> Synced()
    {
      connected := false;
      session := session.(startTime := None);
      dash := IdleDashboard();
      button.SetDisconnected();
    }

    /** `toggle_connection`, the button's command: disconnect when connected,
        connect otherwise. */
    method ToggleConnection(guarded: bool)
      modifies this, button
      ensures old(connected) ==>
        && !connected && session == old(session).(startTime := None)
        && dash == IdleDashboard() && !button.isConnecting && !button.isConnected
        && started == old(started) && pending == old(pending)
      ensures !old(connected) ==>
        var blocked := guarded && old(button.isConnecting);
        var d := Decide(false, old(currentProfile), old(profiles));
        && !connected && session == old(session)
        && if !blocked && d.Start? then
          && started == old(started) + [d.request] && pending == old(pending) + 1
          && dash == old(dash).(status := "Connecting...", subtitle := "Please wait...")
          && button.isConnecting && !button.isConnected
        else
          && started == old(started) && pending == old(pending) && dash == old(dash)
          && button.isConnecting == old(button.isConnecting)
          && button.isConnected == old(button.isConnected)
      ensures profiles == old(profiles) && currentProfile == old(currentProfile)
      ensures profileText == old(profileText) && tabs == old(tabs)
      ensures guarded && old(InSync(connected, pending, button.isConnecting, button.isConnected)) ==> Synced()
    {
      if connected {
        Disconnect();
      } else {
        Connect(guarded);
      }
    }

    /** The UDP gateway port text of the selected profile, as the timer reads
        it (an unknown profile reads as an empty one). */
    function GatewayPortText(): string
      reads this`currentProfile, this`profiles
    {
      var p := if currentProfile.Some? && currentProfile.value in profiles then profiles[currentProfile.value] else map[];
      Get(p, UdpgwPort, "7300")
    }

    /** The timer is running: connected with a (non-zero) start time. */
    predicate Timing()
      reads this`connected, this`session
    {
      connected && session.startTime.Some? && session.startTime.value != 0
    }

    /** The timer checks the gateway on this tick. */
    predicate GatewayDue(now: int, coreAvailable: bool)
      reads this`connected, this`session, this`currentProfile
      requires Timing()
    {
      && coreAvailable && (now - session.startTime.value) % 5 == 0
      && currentProfile.Some? && currentProfile.value != []
    }

    /** One tick of `start_uptime_timer` at time `now`, with interface counters
        `rx` and `tx`. Every fifth second the gateway is checked against the
        socket listing `ss` (`None` when `ss` fails), unless the VPN core is
        unavailable. `rescheduled` says whether the next tick is scheduled:
        not when the timer is off, nor when the port text is not an integer
        (`int()` raises out of the callback). */
    method Tick(now: int, rx: int, tx: int, coreAvailable: bool, ss: Option<string>) returns (rescheduled: bool)
      modifies this
      ensures !old(Timing()) ==> !rescheduled && dash == old(dash)
      ensures old(Timing()) ==>
        Ticked(dash, rescheduled)
          == TickOutcome(old(dash), now - old(session.startTime.value),
                         (rx - old(session.initialRx)) + (tx - old(session.initialTx)),
                         old(GatewayDue(now, coreAvailable)), old(ParseInt(GatewayPortText())), ss)
      ensures connected == old(connected) && session == old(session)
      ensures profiles == old(profiles) && currentProfile == old(currentProfile)
      ensures profileText == old(profileText) && tabs == old(tabs)
      ensures started == old(started) && pending == old(pending)
    {
      if !Timing() {
        return false;
      }
      var t := TickOutcome(dash, now - session.startTime.value,
                           (rx - session.initialRx) + (tx - session.initialTx),
                           GatewayDue(now, coreAvailable), ParseInt(GatewayPortText()), ss);
      dash := t.dash;
      rescheduled := t.rescheduled;
    }
  }

  /** The read-outs after a tick, and whether the next tick is scheduled. */
  datatype Ticked = Ticked(dash: Dashboard, rescheduled: bool)

  /** One tick of the uptime timer, `elapsed` seconds into the connection
      with `usage` bytes moved: the time and data read-outs are renewed;
      when the gateway check is `due`, the port text read as `port` is
      checked against the listing `ss`, and a port text that is not an
      integer ends the timer before the UDP read-out changes. */
  function TickOutcome(d: Dashboard, elapsed: int, usage: int, due: bool, port: Option<int>,
                       ss: Option<string>): Ticked
  {
    var counted := Counted(d, elapsed, usage);
    if !due then Ticked(counted, true)
    else if port.None? then Ticked(counted, false)
    else Ticked(counted.(udp := GatewayText(ss, port.value)), true)
  }

  /** A tick changes only the time, data and UDP read-outs; the UDP read-out
      only when the check is due and the port text is an integer, and only
      then is the next tick scheduled when the check is due. */
  lemma TickReadOuts(d: Dashboard, elapsed: int, usage: int, due: bool, port: Option<int>, ss: Option<string>)
    ensures var r := TickOutcome(d, elapsed, usage, due, port, ss);
      && r.dash == d.(time := ClockText(elapsed), data := DataLabelFor(usage), udp := r.dash.udp)
      && (r.rescheduled <==> !due || port.Some?)
      && (due && port.Some? ==> r.dash.udp == GatewayText(ss, port.value))
      && (!due || port.None? ==> r.dash.udp == d.udp)
  {
  }

  /** The UDP read-out after a check reads back: "Active:" and a text that
      parses as the port exactly when the listing shows the gateway,
      "Failed" otherwise. */
  lemma GatewayTextReads(ss: Option<string>, port: int)
    ensures var t := GatewayText(ss, port);
      && (t == "Failed" <==> !VpnCore.UdpgwListening(ss, port))
      && (t != "Failed" ==> |t| > 7 && t[..7] == "Active:" && ParseInt(t[7..]) == Some(port))
  {
    if VpnCore.UdpgwListening(ss, port) {
      var t := "Active:" + IntText(port);
      assert t[..7] == "Active:" && t[7..] == IntText(port);
      assert t != "Failed" by { assert t[0] != "Failed"[0]; }
      IntTextRoundTrip(port);
    }
  }

  /** The UDP read-out after a gateway check on `port`: "Active:" and the
      port when the listing shows the port listening, "Failed" otherwise. */
  function GatewayText(ss: Option<string>, port: int): string
  {
    if VpnCore.UdpgwListening(ss, port) then "Active:" + IntText(port) else "Failed"
  }

  /** The UDP read-out `_connection_success` sets: the selected profile's
      gateway port text as stored, or just "Active" with no usable profile. */
  function UdpActiveText(current: Option<string>, profiles: map<string, Profile>): (t: string)
    ensures |t| >= |"Active"| && t[..|"Active"|] == "Active"
    ensures t != "Active" ==> current.Some? && current.value in profiles
  {
    if current.Some? && current.value != [] && current.value in profiles then
      var t := "Active:" + Get(profiles[current.value], UdpgwPort, "7300");
      assert t[..6] == "Active";
      t
    else "Active"
  }

  // ---------------------------------------------------------------------------
  // Two clicks on connect before the first attempt reports back
  // ---------------------------------------------------------------------------

  /** As written, `connect` only looks at the connection flag, which stays
      false until an attempt succeeds: a second click while the first attempt
      runs starts a second thread. When one of them succeeds and the other
      then fails, the window is connected while the button shows idle. */
  method DoubleClickDesync(name: string, f: EditorFields, host: string, now: int, rx: int, tx: int)
      returns (connected: bool, buttonConnected: bool, attempts: nat)
    requires name != [] && Complete(ReadRequest(ProfileEntry(f)))
    ensures attempts == 2
    ensures connected && !buttonConnected
  {
    var app := new App(map[]);
    app.SaveProfile(name, None, f);
    DecideCases(false, Some(name), map[name := ProfileEntry(f)]);
    app.Connect(false);
    app.Connect(false);
    app.ConnectionSucceeded(host, now, rx, tx);
    app.ConnectionFailed();
    connected, buttonConnected, attempts := app.connected, app.button.isConnected, |app.started|;
  }

  /** With the connecting flag checked, the second click is ignored: one
      thread is started, and once it reports success the window and the
      button agree. */
  method GuardedDoubleClick(name: string, f: EditorFields, host: string, now: int, rx: int, tx: int)
      returns (connected: bool, buttonConnected: bool, attempts: nat, outstanding: nat)
    requires name != [] && Complete(ReadRequest(ProfileEntry(f)))
    ensures attempts == 1 && outstanding == 0
    ensures connected && buttonConnected
  {
    var app := new App(map[]);
    app.SaveProfile(name, None, f);
    DecideCases(false, Some(name), map[name := ProfileEntry(f)]);
    app.Connect(true);
    app.Connect(true);
    app.ConnectionSucceeded(host, now, rx, tx);
    connected, buttonConnected := app.connected, app.button.isConnected;
    attempts, outstanding := |app.started|, app.pending;
  }
}
