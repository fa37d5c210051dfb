# SSH VPN Pro: the local SOCKS5 proxy, the stunnel and DNS strings, and the connection state

SSH VPN Pro is a desktop client that turns an SSH account into a system VPN.
This project models three parts of it in Dafny and proves properties of them.

1. **The local SOCKS5 proxy** (`ssh_socks_simple.py`). `ForwardServer.run`
   accepts connections. `handle_socks` serves each one: it runs the RFC 1928
   handshake (CONNECT only, no authentication), opens an SSH `direct-tcpip`
   channel and relays bytes both ways until one side closes, an I/O call
   raises or the SSH transport dies.
   - Module `SocksProtocol` gives that behaviour as functions over the byte
     groups a peer sends. A socket's `recv(n)` returns at most `n` bytes of
     the group that has arrived.
   - Module `SocksServer` runs the same steps imperatively, on `Stream`
     objects whose unread input, written output and closed flag change call
     by call. Every method is proved equal to the functions.
2. **The VPN back end's string logic** (`vpn_core.py`), in module `VpnCore`:
   - the stunnel client configuration that `create_stunnel_config` writes;
   - the loop in `start_stunnel` that reads the local port back out of that
     file, and the log and pid paths it derives from the file name;
   - the DNS server list that `create_tun_vpn` parses;
   - the `ss` listing test of `check_udpgw_status`.
3. **The window's connection state** (`ssh_vpn_pro.py`), in module `VpnApp`,
   with the widgets abstracted away:
   - the profile table (save and delete);
   - the selected profile and tab;
   - the checks `connect` makes;
   - the flags of the big connect button;
   - what success, failure and disconnection do;
   - one tick of the uptime timer: the H:M:S read-out, the choice of data
     unit and the periodic gateway check.

Module `PyText` gives the Python string operations the core relies on as
functions with their laws: `str(int)`, `int(str)`, `strip`, `split`,
`join`, `in`, `replace` and iterating a text file by lines.

## Model

| member | source | states |
|---|---|---|
| PyText.IntTextRoundTrip | vpn_core.py:187 | `int(str(i)) == i` for every integer: the numeral a port is written as parses back to that port |
| PyText.ParseIntIgnoresTrailingSpace | vpn_core.py:187 | `int(t.strip())` of a numeral followed by whitespace, such as the line's newline, is the number |
| PyText.SplitJoin | vpn_core.py:263 | splitting `sep.join(parts)` at `sep` gives back exactly `parts` when no part contains the separator |
| PyText.StripIdempotent | ssh_vpn_pro.py:858-867 | stripping an already stripped text changes nothing |
| PyText.ContainsAt | vpn_core.py:90 | `needle in hay` holds exactly when `needle` occurs at some index of `hay` |
| PyText.ReplaceSuffix | vpn_core.py:197-198 | `(p + pat).replace(pat, rep)` is `p + rep` when the first character of `pat` does not occur in `p`, so a name's only `.conf` ending is swapped and nothing else changes |
| PyText.LinesConcat | vpn_core.py:185 | the lines a text file is iterated as, concatenated, give back the text |
| PyText.LinesOfTerminated | vpn_core.py:185 | newline-terminated lines written one after the other are read back as those same lines, followed by the lines of the rest |
| SocksProtocol.Receive | ssh_socks_simple.py:48 | `recv(n)` takes at most `n` bytes from the front of the stream, loses none, and returns empty exactly at end of stream |
| SocksProtocol.Negotiate | ssh_socks_simple.py:48-81 | the handshake sends either nothing (a rejected greeting) or exactly `05 00`, and any destination port it decodes is below 65536 |
| SocksProtocol.ReadAddress | ssh_socks_simple.py:66-77 | an address type other than 1 and 3, and nothing else, gives `BadAddressType`; every other failure is an address that cannot be read |
| SocksProtocol.GreetingDecides | ssh_socks_simple.py:48-54 | a greeting read shorter than 2 bytes or not starting with 5 closes with nothing sent; any other greeting gets exactly `05 00`, whatever methods it offers |
| SocksProtocol.RequestDecides | ssh_socks_simple.py:57-77 | after an accepted greeting, with only `05 00` sent: the handshake stops for a short header exactly when the header read gave fewer than 4 bytes, for the command exactly when it is not CONNECT, and for the address type exactly when it is neither 1 nor 3; a full CONNECT header goes on to the address read for its type alone, so the version and reserved bytes are not checked |
| SocksProtocol.DottedQuadParts | ssh_socks_simple.py:70-71 | `inet_ntoa` of four bytes is four dot-separated decimal numerals, each reading back as its byte |
| SocksProtocol.PortBytes | ssh_socks_simple.py:80-81 | the port decoded from at most two bytes is below 65536, and from two bytes it is 256·b0 + b1 |
| SocksProtocol.DecodeAscii | ssh_socks_simple.py:74 | ASCII name bytes decode as UTF-8 to the characters with the same codes |
| SocksProtocol.DomainRoundTrip | ssh_socks_simple.py:48-81 | a client that sends a greeting and then a domain CONNECT request gets `05 00`, and the transport is asked for exactly that decoded name and port |
| SocksProtocol.IPv4RoundTrip | ssh_socks_simple.py:48-81 | the same for an IPv4 request: the destination is the dotted form of the four address bytes, with the port sent |
| SocksProtocol.Side | ssh_socks_simple.py:103-113 | one side of an iteration: the bytes read are removed from that stream; what is sent is a prefix of what was read, and all of it with `sendall`; an empty read stops the loop with nothing sent; a side not readable does nothing |
| SocksProtocol.Iterate | ssh_socks_simple.py:100-117 | one iteration reads from each stream only what it removes, sends a prefix of each read on, and stops when the transport is dead |
| SocksProtocol.Relay | ssh_socks_simple.py:100-117 | the relay over a list of rounds reads each stream from the front with nothing lost: read bytes followed by unread bytes are the whole stream |
| SocksProtocol.RelaySnoc | ssh_socks_simple.py:100-117 | one more round extends a running relay by one iteration and leaves a stopped relay unchanged |
| SocksProtocol.WholeSendsRelayExactly | ssh_socks_simple.py:103-113 | when every `send` takes its whole chunk, each side receives exactly the bytes read from the other, in the order read |
| SocksProtocol.SendAllRelaysExactly | ssh_socks_simple.py:103-113 | with `sendall`, the relay is byte-exact in both directions whatever the peers accept, unless a send raises |
| SocksProtocol.ShortSendLosesBytes | ssh_socks_simple.py:107 | as written, a `send` that takes 1 of 3 bytes loses the other 2: they were read from the client and never reach the channel |
| SocksProtocol.DeadTransportStopsRelay | ssh_socks_simple.py:115-117 | a round in which the transport reports itself dead ends the relay by that round at the latest |
| SocksProtocol.EmptyReadStopsRelay | ssh_socks_simple.py:104-112 | an empty read on a readable side ends the relay with nothing sent for it: on the client side always, on the channel side whenever the client side did not stop the round (quiet, or read and forwarded data) |
| SocksServer.Stream.constructor | ssh_socks_simple.py:35 | a new connection has all of the peer's bytes unread, nothing sent, and is open |
| SocksServer.Stream.Recv | ssh_socks_simple.py:48 | `recv(n)` returns the front of the unread bytes, at most `n`, removes them from the input, and touches nothing else |
| SocksServer.Stream.Send | ssh_socks_simple.py:54 | `send` appends what the peer accepted to the output and returns true; a call that raises appends nothing |
| SocksServer.Stream.Close | ssh_socks_simple.py:121-129 | `close` marks the connection closed and changes nothing else; closing twice is harmless |
| SocksServer.Handshake | ssh_socks_simple.py:46-81 | the imperative handshake gives the same outcome, bytes sent and bytes left as `Negotiate`, and closes the client exactly when it gives up |
| SocksServer.Request | ssh_socks_simple.py:56-81 | the request reads give `ReadRequest`'s outcome and leftover input, send nothing, and close the client exactly on failure |
| SocksServer.Forward | ssh_socks_simple.py:103-113 | one side of an iteration changes the two streams exactly as `Side` says |
| SocksServer.Iteration | ssh_socks_simple.py:100-117 | one pass of the loop body changes both streams exactly as `Iterate` says and closes neither |
| SocksServer.RelayRounds | ssh_socks_simple.py:100-117 | the loop leaves both streams as `Relay` over the rounds says, and returns its stop reason |
| SocksServer.RelayLoop | ssh_socks_simple.py:100-129 | the relay followed by the `finally`: both ends are closed exactly when the loop has stopped |
| SocksServer.ForwardServer.constructor | ssh_socks_simple.py:18-22 | stores the local port it is given; binding and listening are left out |
| SocksServer.ForwardServer.HandleSocks | ssh_socks_simple.py:44-129 | a handshake that gives up closes the client after at most `05 00`; a refused channel gets exactly `05 05 00 01 00 00 00 00 00 00` and a close; an opened channel gets `05 00 00 01 00 00 00 00 00 00` before any relayed byte, then the relay runs, and both ends are closed once it stops |
| SocksServer.ForwardServer.Run | ssh_socks_simple.py:33-42 | the accept loop serves one connection per successful `accept` and stops for good at the first one that raises |
| VpnCore.UdpgwListeningMeans | vpn_core.py:86-92 | the gateway counts as up exactly when `ss` ran and `127.0.0.1:<port>` occurs somewhere in its output |
| VpnCore.CreateStunnelConfig | vpn_core.py:95-145 | a given port is returned unchanged, a drawn one lies in 22000..22999; the file is `/tmp/stunnel_ssh_<suffix>.conf`, and its text holds the line `accept = 127.0.0.1:<port>` and the line `connect = <address>:<tls_port>`, with the resolved address, or the host when resolution fails |
| VpnCore.ConfigShowsPort | vpn_core.py:127-140 | the config text holds the whole accept line with the port and the whole connect line with the server address and the TLS port |
| VpnCore.ScanLines | vpn_core.py:184-188 | the scan finds no port exactly when no line mentions both "accept" and "127.0.0.1:" |
| VpnCore.ExtractLocalPort | vpn_core.py:182-188 | the `for line in f` loop ends with the result of the scan: the port of the first matching line, a parse error, or no match |
| VpnCore.LookupPort | vpn_core.py:190-192 | no match and a port of 0 make `start_stunnel` give up; any port it goes on with is non-zero and is the one parsed |
| VpnCore.ExtractRoundTrip | vpn_core.py:127-140 | the scan of the written config reads back exactly the local port written into it, whatever the server address and SNI name; a port of 0 is read and then rejected |
| VpnCore.CreatedConfigRoundTrip | vpn_core.py:95-192 | `start_stunnel` recovers from the file `create_stunnel_config` wrote the same local port that call returned |
| VpnCore.NoAcceptNoPort | vpn_core.py:190-192 | a file with no matching line gives no port |
| VpnCore.DerivedPaths | vpn_core.py:197-198 | the log and pid paths derived from the config path are `/tmp/stunnel_ssh_<suffix>.log` and `.pid` |
| VpnCore.ConfigNamesPaths | vpn_core.py:115-130 | the config names the derived paths as its `pid` and `output` files |
| VpnCore.Entries | vpn_core.py:263 | the list comprehension keeps no more entries than there are parts, and each entry is non-empty and stripped |
| VpnCore.DnsRoundTrip | vpn_core.py:263 | a list of servers written out with `", "` parses back to the same list, in the same order |
| VpnCore.EntriesEmpty | vpn_core.py:263 | the list comprehension keeps nothing exactly when every part strips to nothing |
| VpnCore.NoServers | vpn_core.py:263-265 | a setting lists no server exactly when every comma-separated part of it is blank (empty, spaces only, commas only), and then the servers are `8.8.8.8` and `8.8.4.4` |
| VpnCore.DnsServersChosen | vpn_core.py:263-265 | primary and secondary are the first two servers listed, with `8.8.8.8` and `8.8.4.4` standing in for missing ones |
| VpnApp.ProfileEntryFields | ssh_vpn_pro.py:690-702 | the saved profile has every key; the protocol and authentication method are kept as chosen, and every typed field is stripped |
| VpnApp.SavedName | ssh_vpn_pro.py:684-688 | the profile is saved under the name it was opened with, or else under the dialog's answer; an empty or cancelled answer saves nothing |
| VpnApp.Problem | ssh_vpn_pro.py:869-884 | validation passes exactly when host, port and username are filled, Password authentication has a password, SSH Key authentication has a key path, and SSH-TLS has an SNI domain and a TLS port; each refusal names the check that failed |
| VpnApp.DecideCases | ssh_vpn_pro.py:847-884 | `connect` does nothing while connected, refuses with no selected or known profile, and otherwise starts exactly when the request read from the profile passes validation |
| VpnApp.SavedProfileRequest | ssh_vpn_pro.py:856-867 | a saved profile reads back in `connect` as what was typed, stripped: the second strip changes nothing |
| VpnApp.SavedProfileConnects | ssh_vpn_pro.py:683-884 | saving a profile and pressing connect starts a connection exactly when the stripped fields are complete |
| VpnApp.UptimeFields | ssh_vpn_pro.py:1394-1397 | minutes and seconds are below 60 and 3600·h + 60·m + s is the elapsed time |
| VpnApp.UptimeUnique | ssh_vpn_pro.py:1394-1397 | that decomposition is the only one with minutes and seconds below 60 |
| VpnApp.PaddedDigits | ssh_vpn_pro.py:1398 | `{n:02d}` has at least two characters, exactly two below 100, and reads back as `n` |
| VpnApp.ClockTextReads | ssh_vpn_pro.py:1394-1398 | the H:M:S read-out splits at its colons into three numerals, two digits each for minutes and seconds, that recombine to the elapsed seconds |
| VpnApp.UsageUnit | ssh_vpn_pro.py:1404-1411 | bytes exactly below 1024; otherwise the unit is the largest of KB, MB and GB that is not above the total |
| VpnApp.UsageUnitMonotone | ssh_vpn_pro.py:1404-1411 | more traffic never shows in a smaller unit |
| VpnApp.DataLabelReads | ssh_vpn_pro.py:1404-1405 | below 1024 bytes the read-out is `<n> B` and reads back as the exact total; from 1024 up the total is scaled to its unit |
| VpnApp.ConnectButton.constructor | ssh_vpn_pro.py:59-60 | a new button is neither connecting nor connected |
| VpnApp.ConnectButton.SetConnecting | ssh_vpn_pro.py:103-105 | connecting and not connected, so never both |
| VpnApp.ConnectButton.SetConnected | ssh_vpn_pro.py:110-112 | connected and not connecting, so never both |
| VpnApp.ConnectButton.SetDisconnected | ssh_vpn_pro.py:118-120 | neither flag set |
| VpnApp.App.constructor | ssh_vpn_pro.py:239-254 | starts disconnected with the loaded profiles, no profile selected and the home tab shown, its button the only highlighted one, and the button in step with the connection |
| VpnApp.App.SaveProfile | ssh_vpn_pro.py:683-706 | with a name: stores the stripped fields under it, overwriting any profile of that name, and selects it; with no name: nothing changes; nothing else changes either way |
| VpnApp.App.StoreAndSelect | ssh_vpn_pro.py:690-705 | the entry is stored under the name and the name becomes the selected profile |
| VpnApp.App.SelectProfile | ssh_vpn_pro.py:1296-1300 | a click on a profile card makes its name the selected profile and shows it in the label; the table and the rest of the window state are unchanged |
| VpnApp.App.DeleteProfile | ssh_vpn_pro.py:1356-1369 | once confirmed, removes the named profile and no other and leaves the rest unchanged; the selection becomes empty exactly when it was the deleted profile |
| VpnApp.App.SwitchTab | ssh_vpn_pro.py:815-838 | records and shows the tab, and exactly its button carries the highlighted style |
| VpnApp.App.Connect | ssh_vpn_pro.py:847-900 | when `Decide` says start: shows the connecting state and starts one connection thread with the request read from the profile; otherwise nothing changes; with the connecting check added, the button stays in step with the connection |
| VpnApp.App.StartConnecting | ssh_vpn_pro.py:886-900 | the connecting status is shown, the button is set connecting and one thread is started with the request |
| VpnApp.App.ConnectionSucceeded | ssh_vpn_pro.py:983-1004 | connected, with the start time and counters recorded; the server read-out is the host cut to 20 characters; the UDP read-out is `Active:` and the profile's gateway port, or just `Active` |
| VpnApp.App.ConnectionFailed | ssh_vpn_pro.py:1014-1041 | shows the failure and sets the button idle; the connection flag is left as it was |
| VpnApp.App.Disconnect | ssh_vpn_pro.py:1143-1154 | not connected, no start time, the button idle, and every read-out as the window first shows it |
| VpnApp.App.ToggleConnection | ssh_vpn_pro.py:841-845 | when connected, leaves the window disconnected with no start time, the button idle and the read-outs reset; otherwise ends in exactly the state `connect` leaves (connecting shown and one thread started when validation passes, nothing changed when it fails); the profile table, selection, editor text and tabs are never touched |
| VpnApp.App.Tick | ssh_vpn_pro.py:1392-1424 | nothing happens when the timer is off; otherwise the read-outs become `TickOutcome` of the elapsed time, the traffic since connecting, and the gateway check on every fifth second |
| VpnApp.TickReadOuts | ssh_vpn_pro.py:1392-1424 | a tick changes only the time, data and UDP read-outs; the UDP read-out only when the check is due and the port text is an integer; a port text that is not an integer ends the timer |
| VpnApp.GatewayTextReads | ssh_vpn_pro.py:1416-1422 | after a check the UDP read-out is `Failed` exactly when the gateway is not listening, and otherwise `Active:` followed by a text that parses as the port |
| VpnApp.UdpActiveText | ssh_vpn_pro.py:997-1003 | the read-out starts with `Active`, and is more than that only when a known profile is selected |
| VpnApp.DoubleClickDesync | ssh_vpn_pro.py:847-854 | as written: two clicks start two connection threads; one success followed by one failure leaves the window connected and the button idle |
| VpnApp.GuardedDoubleClick | ssh_vpn_pro.py:847-854 | with the connecting check: the second click is ignored, one thread runs, and after its success the window and the button agree |

## Left out

- Sockets, threads and `select` timing. The listening socket's `bind` and `listen` are left out, so `ForwardServer` only records its local port. Each connection is a byte stream in arrival groups. Each relay iteration is a `Round` record saying:
  - which side was readable;
  - how much each send accepted;
  - whether the transport was alive.
  The 1-second poll, the thread per connection and the accept loop's real sockets are not modelled. `Run` only counts the connections handed out.
- paramiko. The calls `open_channel` and `is_active` are inputs: the `opens` flag and `Round.alive`.
- SocksServer.Handshake: the `05 00` reply and the two 10-byte replies are assumed to be sent whole. A `recv` that raises during the handshake is treated like end of stream; both lead to the same close with nothing sent.
- SocksProtocol.ReadName: the name read is one `recv(L)`. It may return fewer bytes than the length byte says, as in the source; only the round-trip lemmas assume that the name arrives whole.
- Anything the loop does after the rounds given run out is not modelled: the relay is stated over a finite list of rounds.
- `random.randint`, `gethostbyname` and the `ss` call are parameters:
  - the drawn port and suffix;
  - the resolved address, `None` when resolution raises;
  - the listing, `None` when `ss` raises.
- Writing and reading the config file are not modelled. `start_stunnel` reads its lines as the text written.
- PyText.Lines: a line ends only at `'\n'`. Python's text-mode `for line in f` uses universal newlines, which also end a line at `'\r'` and `'\r\n'` and turn both into `'\n'`. The config `create_stunnel_config` writes uses only `'\n'`, so the round trip is not affected; a config file with CR line ends is not modelled.
- PyText.ParseInt: accepts only ASCII digits, the ASCII subset of what `int` accepts. Python's `int` also accepts every other Unicode decimal digit (`int('\uff17\uff13\uff10\uff10') == 7300`). For a gateway port text written in such digits, `VpnApp.App.Tick` stops the timer where the program goes on.
- The rest of `start_stunnel` is left out: the `which`/`pkill` calls, starting stunnel, reading the pid file and waiting for the port. All of it is process plumbing.
- The rest of `create_tun_vpn` is left out: the SSH proxy, the generated root scripts and routing. These are subprocesses and OS plumbing.
- The connection thread `_connect_thread` is a start record in `started`. It later reports through `ConnectionSucceeded` or `ConnectionFailed`, in any order.
- The process kills in `_connection_failed` and `disconnect` are left out, and so are the cleanup dialog, the log lines, the tray icon and the notification.
- Widgets, colours, the canvas animation, the tray, message boxes and `SingleInstance` are left out. The confirm dialog of `delete_profile_card` and the name dialog of `save_and_close` are inputs.
- Loading and saving the profile file (JSON) is left out. The loaded table is a parameter. Profile values are assumed to be strings, and keys other than the eleven fields are not modelled.
- VpnApp.App.SwitchTab: only the four tabs `home`, `config`, `logs` and `about` are modelled. The source would accept any name for the recorded tab.
- VpnApp.DataLabelFor: from 1024 bytes up, the read-out records the total and the unit. The float division and the `.1f`/`.2f` formatting are not modelled.
- VpnApp.App.Tick:
  - Time is whole seconds; the source truncates the float difference of two `time.time()` readings.
  - The interface counters are parameters.
  - The immediate first tick that `_connection_success` triggers is not modelled as part of `ConnectionSucceeded`; it is a separate call to `Tick`.
  - The 1-second rescheduling is the `rescheduled` result.
- `ping_server`, `new_profile`, the profile editor's widget logic and the about and logs tabs are not part of this model.

## Findings

| source | as written | input that shows it | evidently intended | confidence | as-written member | corrected member |
|---|---|---|---|---|---|---|
| ssh_socks_simple.py:107,113 | the relay forwards each chunk with `send`, which may accept only part of it; the rest is dropped | the client sends 3 bytes; the channel's `send` accepts 1; the client then closes. 3 bytes were read but 1 was forwarded | forward each chunk whole with `sendall`, so each side receives exactly what was read from the other | high; not executed | SocksProtocol.ShortSendLosesBytes | SocksProtocol.SendAllRelaysExactly |
| ssh_vpn_pro.py:847-854 | `connect` checks only `connected`, which stays false while an attempt runs, so a second click starts a second connection thread | two clicks on a complete saved profile, then one thread succeeds and the other fails: the window is connected while the button shows disconnected | ignore clicks while the button is connecting | medium; not executed | VpnApp.DoubleClickDesync | VpnApp.GuardedDoubleClick |
