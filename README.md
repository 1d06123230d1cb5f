# ESP32 serial-to-telnet bridge: settings, credentials and command interfaces

This project models the configuration side of an ESP32 serial-to-telnet bridge.

- **`NvsSettings`** is the "settings" namespace in non-volatile storage. It holds nine wifi slots (indices 0 to 8), each with an ssid of at most 31 bytes and a password of at most 63 bytes. It also holds a hostname, an access-point name and a boot mode (AP or STA).
- **`WifiCredentials`** is the "credentials" namespace. It is a ring of nine `ssid\tpass` records with a persisted cursor, `index`.
- **`Commander`** is the command interpreter that both the telnet and the web interface use. It holds a table of root words (`sys`, `wifi`, `net`) and their sub-commands, matched with Arduino `String` operations (`startsWith`, `replace`, `trim`, `toInt`, `indexOf`). Seven of the nine sub-command handlers read or write the settings. `sys reboot` restarts the board, and `net mac` prints the MAC address.
- **`TelnetServer`** is a single-client TCP server. It reports START, CHECK and STOP events to a handler.
- **`WebServer`** reads one HTTP request per client. It takes the command from a `GET /'command'` line (`%20` is decoded), answers `favicon` with 404, and otherwise prints a 200 header, then what the interpreter prints, then a usage text after `help`.
- **`Button`** is a push-button timer. It reports how long the button has been held and whether it is a long press. Neither the source nor the model debounces: every level change is taken at once.

The modules are:

| module | file | what it models |
|---|---|---|
| `Prefs` | preferences.dfy | The Preferences namespace as a map from key to value, with getters that fall back to a default. |
| `ArduinoString` | arduino_string.dfy | The Arduino `String` operations the sources use. `toInt` is `atol`: leading white space, an optional sign, then decimal digits. |
| `Nvs` | nvs_settings.dfy | Key functions, pure `Put…` writes and a `NvsSettings` class whose setters are proved to perform them. |
| `Credentials` | wifi_credentials.dfy | A `WifiCredentials` class over a cursor and the namespace, plus lemmas about the ring. |
| `Commander` | commander.dfy | `Route` (the actions `process()` takes for a line), `Perform` (their effect) and the handlers as functions. The `process()` loops and every handler are also methods that are proved equal to those functions. |
| `CommanderProps` | commander_props.dfy | What the interpreter does with concrete kinds of lines. |
| `Telnet` | telnet_server.dfy | A `TelnetServer` class whose poll is a `Poll` value. The event log it produces is proved well formed. |
| `Web` | web_server.dfy | The request reader as a byte loop proved equal to `Parse`, and the answer `Serve`. |
| `ButtonTimer` | button.dfy | A `Button` class over `(lastms, prev)`, with 16-bit wrap-around of the held time. |

Arithmetic follows the source's widths where it matters:
- indices are `uint8_t`, so `wifi add -248 ssid=x` writes slot 8;
- the held time of the button is `uint16_t`, computed from a 32-bit millisecond clock.

Several source behaviours are modelled as written:
- `wifi erase` always prints the help listing. Its argument has already been trimmed, so it can never begin with the space the handler requires.
- A `net` line with an unknown sub-command reads past the end of the command table. The model records this as a fault.
- `replace` removes every occurrence of a command word from the line, not only the leading one.

## Model

| member | source | states |
|---|---|---|
| Nvs.NvsSettings.constructor | NvsSettings.cpp:4-7 | The object sees exactly the persisted namespace. |
| Nvs.NvsSettings.WifiMaxN | NvsSettings.hpp:40 | The highest wifi index is 8. |
| Nvs.NvsSettings.Ssid | NvsSettings.cpp:26-30 | The stored ssid of a slot up to 8. It is "" for an index above 8 or a slot never written. |
| Nvs.NvsSettings.Pass | NvsSettings.cpp:37-41 | The stored password of a slot up to 8. It is "" for an index above 8 or a slot never written. |
| Nvs.NvsSettings.Hostname | NvsSettings.cpp:48 | The stored hostname, or "" when none is stored. |
| Nvs.NvsSettings.APname | NvsSettings.cpp:51 | The stored access-point name, or "" when none is stored. |
| Nvs.NvsSettings.Boot | NvsSettings.cpp:56 | AP exactly when the stored flag is AP. STA when no flag is stored. |
| Nvs.NvsSettings.SetSsid | NvsSettings.cpp:31-35 | The new namespace and the returned count are those of `PutSsid` on the old namespace. |
| Nvs.NvsSettings.SetPass | NvsSettings.cpp:42-46 | The new namespace and the returned count are those of `PutPass`. |
| Nvs.NvsSettings.SetHostname | NvsSettings.cpp:49 | The new namespace and count are those of `PutHostname`. |
| Nvs.NvsSettings.SetAPname | NvsSettings.cpp:52 | The new namespace and count are those of `PutAPname`. |
| Nvs.NvsSettings.SetBoot | NvsSettings.cpp:57 | The new namespace and count are those of `PutBoot`. |
| Nvs.NvsSettings.Clear | NvsSettings.cpp:54 | The namespace is empty and success is reported. |
| Nvs.NvsSettings.EraseAll | NvsSettings.cpp:59 | The namespace is empty and success is reported. |
| Nvs.KeysDistinct | NvsSettings.cpp:29-49 | `ssidN` and `passN` keys differ for different slots. No ssid key is a pass key. Neither kind collides with `hostname`, `APname` or `boot`. |
| Nvs.SsidWrite | NvsSettings.cpp:26-35 | A value over 31 bytes or an index over 8 writes nothing and returns 0. Otherwise the slot reads back the value, the count is its length, and no other slot, password, hostname, APname or boot mode changes. |
| Nvs.PassWrite | NvsSettings.cpp:37-46 | The same for passwords with the limit 63: only that slot's password changes. |
| Nvs.HostnameWrite | NvsSettings.cpp:48-49 | The hostname reads back, and no slot, APname or boot mode changes. |
| Nvs.APnameWrite | NvsSettings.cpp:51-52 | The APname reads back, and nothing else changes. |
| Nvs.BootWrite | NvsSettings.cpp:56-57 | An empty namespace boots STA. A written mode reads back, and nothing else changes. |
| Nvs.ErasedDefaults | NvsSettings.cpp:26-59 | After erasing, every getter returns its default (empty strings, STA). Slots above 8 always read empty. |
| Credentials.WifiCredentials.constructor | WifiCredentials.cpp:3-7 | The cursor is the persisted `index` (default 0) taken as `uint8_t`, so it agrees with the persisted value. |
| Credentials.WifiCredentials.Index | WifiCredentials.cpp:9-12 | The cursor. While it agrees with the persisted `index`, it is that value. |
| Credentials.WifiCredentials.NextIndex | WifiCredentials.cpp:14-18 | The new state is `Advance` of the old: the cursor steps round 0..8 and is persisted. Afterwards the cursor agrees with the persisted value. |
| Credentials.WifiCredentials.PutWifiAt | WifiCredentials.cpp:27-33 | The new state and count are those of `PutWifi` on the old state. A cursor that agreed with the persisted value still agrees. |
| Credentials.WifiCredentials.GetWifi | WifiCredentials.cpp:20-25 | The record in a slot up to 8. It is "" for an index above 8 or a slot never written. |
| Credentials.WifiCredentials.Clear | WifiCredentials.cpp:35-39 | The cursor is 0, the namespace is empty, and success is reported. The cursor agrees with what a restart would load. |
| Credentials.WifiKeysDistinct | WifiCredentials.cpp:17-30 | Different slots have different `wifiN` keys, and none of them is `index`. |
| Credentials.AdvanceWraps | WifiCredentials.cpp:14-18 | The cursor stays at most 8. It steps by one below 8 and returns to 0 after 8. The persisted index reloads to the same cursor. |
| Credentials.PutWifiRejects | WifiCredentials.cpp:27-33 | An ssid over 31 bytes, a password over 63, or a failed write leaves the state unchanged and returns 0. |
| Credentials.PutWifiStores | WifiCredentials.cpp:27-33 | A stored pair writes exactly `ssid\tpass` at the cursor, returns its length and advances the cursor. Every other slot is unchanged. |
| Credentials.ClearedStore | WifiCredentials.cpp:35-39 | After `clear()` every slot is empty and the next record goes to slot 0. |
| Credentials.SlotsDiffer | WifiCredentials.cpp:14-18 | Nine consecutive puts use nine different slots. |
| Credentials.RingCursor | WifiCredentials.cpp:14-33 | After k accepted puts the cursor is k steps further round the ring. |
| Credentials.RingKeepsLastNine | WifiCredentials.cpp:14-33 | After any sequence of accepted puts, each of the last nine records is in its slot. |
| ButtonTimer.Button.constructor | Button.cpp:3-7 | The pin and threshold are kept; the threshold defaults to 3000 ms, as declared in `Button.hpp` line 9. The timer starts at `(0, UP)`. |
| ButtonTimer.Button.Pressed | Button.cpp:9-16 | The new timer and the returned time are those of `Press` on the old timer, the level read and the clock. |
| ButtonTimer.Button.IsDown | Button.cpp:18 | True exactly when the pin does not read UP. |
| ButtonTimer.Button.IsUp | Button.cpp:19 | True exactly when the pin reads UP. |
| ButtonTimer.Button.LongPress | Button.cpp:20 | The timer advances as in `pressed()`. The result is true exactly when the held time exceeds the threshold. |
| ButtonTimer.UpReadsZero | Button.cpp:9-16 | A button read as up always reports 0 and ends in state UP with the same timestamp. |
| ButtonTimer.ChangeReadsZero | Button.cpp:9-16 | A change of level reports 0 and records the new level. Only a press records the clock. |
| ButtonTimer.HeldTime | Button.cpp:11-12 | While held down, the reported time is the 16-bit difference between now and the press. |
| ButtonTimer.HoldSequence | Button.cpp:9-16 | A press followed by any readings while held reports 0, then each reading's time since the press. |
| ButtonTimer.HoldFrom | Button.cpp:9-16 | While held down, successive readings report the time since the same press. |
| Telnet.TelnetServer.constructor | TelnetServer.cpp:22-29 | No client, no session, no events, and not listening. |
| Telnet.TelnetServer.Start | TelnetServer.cpp:31-36 | Listening, with the session unchanged. |
| Telnet.TelnetServer.Stop | TelnetServer.cpp:38-43 | Not listening, with the session as `stop_client()` leaves it. |
| Telnet.TelnetServer.StopClient | TelnetServer.cpp:45-52 | The session becomes `StopClientStep` of the old one. |
| Telnet.TelnetServer.CheckClient | TelnetServer.cpp:60-79 | The session becomes `CheckClientStep` of the old one and the poll. |
| Telnet.TelnetServer.CheckData | TelnetServer.cpp:81-84 | The session becomes `CheckDataStep` of the old one. |
| Telnet.TelnetServer.Check | TelnetServer.cpp:54-58 | The session becomes `CheckStep`: client check, then data check. |
| Telnet.Extend | TelnetServer.cpp:45-84 | Appending an event keeps the log well formed exactly when it is START, or when the session is open. |
| Telnet.StopClientInv | TelnetServer.cpp:45-52 | `stop_client()` keeps the session invariant. The log stays well formed and matches the connected flag. |
| Telnet.CheckInv | TelnetServer.cpp:54-84 | Every step of a poll keeps the session invariant. |
| Telnet.StopOnce | TelnetServer.cpp:45-52 | STOP is sent only for a connected session. Afterwards there is no client and no connection, and a second call does nothing. |
| Telnet.RejectSecondClient | TelnetServer.cpp:62-65 | While a client is held, a pending connection is rejected and the session is unchanged. |
| Telnet.AcceptThenCheck | TelnetServer.cpp:66-84 | An accepted client records its address and sends START. The same poll then sends CHECK. |
| Telnet.FailedAcceptSilent | TelnetServer.cpp:67-71 | A failed accept sends nothing and skips the loss check. |
| Telnet.LostClientStops | TelnetServer.cpp:78 | A lost client with nothing pending ends with STOP and no CHECK. |
| Telnet.ReplacedWithoutStop | TelnetServer.cpp:66-78 | A lost client replaced in the same poll gets no STOP before the new START. |
| Telnet.OneCheckPerPoll | TelnetServer.cpp:54-58 | Each poll sends exactly one CHECK when a client is held after the client check, and none otherwise. |
| Telnet.StopsSeparated | TelnetServer.cpp:45-84 | In every log two STOPs have a START between them. |
| Telnet.OpenHasStart | TelnetServer.cpp:45-84 | In an open session every earlier STOP is followed by a START. |
| Web.WebServer.constructor | WebServer.hpp:7-8 | The port and name are kept, and the server is not listening. |
| Web.WebServer.Start | WebServer.cpp:29-34 | The server is listening. |
| Web.WebServer.Stop | WebServer.cpp:36-40 | The server is not listening. |
| Web.WebServer.Check | WebServer.cpp:42-109 | With no client nothing happens. Otherwise the printed text and the new settings are those of `Serve` on the client's bytes, and the client is closed. |
| Web.ReadRequest | WebServer.cpp:48-88 | The byte loop yields the command `Parse` yields, or none if the client leaves before the blank line. |
| Web.CheckLine | WebServer.cpp:64-80 | One request line updates the command as `LineCommand` says. |
| Web.Answer | WebServer.cpp:84-102 | The answer and the new state are those of `Respond`. |
| Web.CrInvisible | WebServer.cpp:53 | CR bytes have no effect on the command read. |
| Web.AfterEndIgnored | WebServer.cpp:81-103 | Bytes after the end of the request change nothing. |
| Web.NoEndWithoutLf | WebServer.cpp:50-57 | Without an LF no request is complete. |
| Web.LineRead | WebServer.cpp:54-80 | A non-empty line ended by LF updates the command and starts a new line. |
| Web.LinesRead | WebServer.cpp:50-80 | A run of lines leaves the command that the last matching line set. |
| Web.RequestCommand | WebServer.cpp:50-103 | Lines followed by a blank line produce that command. |
| Web.Unfinished | WebServer.cpp:50-106 | A client that leaves before the blank line gets no answer, and the state is unchanged. |
| Web.LastCommandAppend | WebServer.cpp:64-80 | The last line decides on top of the command so far. |
| Web.OtherLineKeeps | WebServer.cpp:66-78 | A line not starting `GET /` keeps the command. |
| Web.HeadersKeep | WebServer.cpp:66-78 | Header lines after the request line keep the command. |
| Web.FaviconLine | WebServer.cpp:76-78 | `GET /favicon.ico…` sets the command `favicon`. |
| Web.CutAtQuote | WebServer.cpp:69-74 | The command is the trimmed text before the first quote. |
| Web.NoQuote | WebServer.cpp:69-70 | With no closing quote the command is kept. |
| Web.DecodeBeforeQuote | WebServer.cpp:68-69 | Decoding `%20` does not move the first quote past the text before it. |
| Web.QuotedHead | WebServer.cpp:66-69 | The prefix is removed from a quoted line. |
| Web.QuotedTail | WebServer.cpp:68-74 | Decoding and cutting at the quote give the decoded, trimmed text. |
| Web.QuotedLine | WebServer.cpp:66-74 | `GET /'x'…` sets the command to `x` with `%20` decoded and trimmed. |
| Web.UnquotedLine | WebServer.cpp:66-75 | `GET /'x` without a closing quote keeps the command. |
| Web.QuotedLineWins | WebServer.cpp:64-80 | A quoted request line followed by headers gives its command. |
| Web.LastCommandSplit | WebServer.cpp:64-80 | The lines are read in order: later lines start from what earlier lines set. |
| Web.PageLayout | WebServer.cpp:90-101 | The page is the 200 header, then the interpreter's output, then the usage text exactly when the command is `help`, then a blank line. |
| Web.RespondRunsCommand | WebServer.cpp:90-101 | Any command but `favicon` leaves the interpreter's new state. Its printed text follows the three header lines, and the page ends with a blank line. |
| Web.FaviconCommand | WebServer.cpp:76-78 | A request whose line is `GET /favicon.ico…` yields `favicon`. |
| Web.FaviconServed | WebServer.cpp:50-88 | A request whose `GET /favicon.ico` line is followed only by headers is answered with exactly the 404 status and a blank line, and the state is unchanged. |
| Web.DefaultIsHelp | WebServer.cpp:49 | A request with no command line runs `help`. |
| Web.QuotedRequest | WebServer.cpp:50-103 | A full request carrying `GET /'x'` runs the decoded `x`. |
| Web.QuotedServed | WebServer.cpp:50-103 | A full request carrying `GET /'x'` runs x, with `%20` decoded and trimmed, through the interpreter. The new state is the interpreter's, and its reply follows the 200 header. If x reads `favicon`, the answer is the 404. |
| Web.ServedAs | WebServer.cpp:81-103 | A finished request with command c is answered with the interpreter's reply to c after the 200 header, or with the 404 when c is `favicon`. |
| Web.DefaultServed | WebServer.cpp:49-101 | A request with no `GET /` line is answered with the interpreter's reply to `help` inside the 200 page. The usage text and a blank line come last, and the state is the interpreter's. |
| Commander.PrintHelp | Commander.cpp:57-69 | `help()` prints the heading, then one line per sub-command, as `HelpText`. |
| Commander.HelpOf | Commander.cpp:59-68 | The loop prints the heading and the help lines of the table, with each sub-command under its last root. |
| Commander.PrintBad | Commander.cpp:70 | `bad()` prints `unknown command`. |
| Commander.RunSysBoot | Commander.cpp:107-125 | The output and new state are those of `BootReply`. |
| Commander.RunSysReboot | Commander.cpp:127-133 | The output and new state are those of `RebootReply`. |
| Commander.RunSysEraseAll | Commander.cpp:135-142 | The output and new state are those of `EraseAllReply`. |
| Commander.RunWifiList | Commander.cpp:144-168 | The output is `ListReply`: header, dashes and rows with the measured widths. |
| Commander.ListWidths | Commander.cpp:152-157 | The loop computes the widest ssid and password of slots 0..7. |
| Commander.PrintDashes | Commander.cpp:161 | The loop prints n dashes. |
| Commander.RunWifiAdd | Commander.cpp:170-199 | The output and new state are those of `AddReply`. |
| Commander.StoreCredential | Commander.cpp:188-198 | The output and new state are those of `StoreReply`. |
| Commander.RunWifiErase | Commander.cpp:201-221 | The output and new state are those of `EraseReply`. |
| Commander.ClearCredential | Commander.cpp:219-220 | The slot's ssid and password are set empty. |
| Commander.RunNetHostname | Commander.cpp:223-246 | The output and new state are those of `HostnameReply`. |
| Commander.RunNetAPname | Commander.cpp:248-268 | The output and new state are those of `APnameReply`. |
| Commander.RunNetMac | Commander.cpp:270-274 | The output is `MacReply`. |
| Commander.Dispatch | Commander.cpp:93 | The table's function pointer runs the handler `Handle` names. |
| Commander.RunProcess | Commander.cpp:75-101 | `process()` prints and changes what `Process` says. |
| Commander.ProcessTable | Commander.cpp:78-100 | The outer loop over any table does what `Perform(Scan(…))` says. |
| Commander.RunEnter | Commander.cpp:82-97 | A matched root does what `Enter` says, or falls through unchanged. |
| Commander.SubCommand | Commander.cpp:87-97 | The sub-command loop does what `Leaves` says, or falls through unchanged. |
| Commander.PerformFirst | Commander.cpp:75-101 | Actions take effect in order, each on the state the previous one left. |
| CommanderProps.RouteShape | Commander.cpp:75-101 | A line leads to zero or more help listings, then exactly one final action. A handler's argument never starts with a space. |
| CommanderProps.PerformShaped | Commander.cpp:75-101 | Help listings change nothing; only the final action matters. |
| CommanderProps.ProcessChangesOnlyThroughHandler | Commander.cpp:75-101 | `process()` changes state only through the one handler it calls. It faults exactly when it reads past the table. |
| CommanderProps.WifiEraseOnlyHelps | Commander.cpp:201-203 | Routed through `process()`, `wifi erase` always prints the help listing and changes nothing. |
| CommanderProps.UnknownCommand | Commander.cpp:78-100 | A line prints `unknown command` alone exactly when no root word starts it, and the state is then unchanged. |
| CommanderProps.NumberedIndex | Commander.cpp:176-183 | `N rest` reads index N. The "0 " case holds exactly when N is 0. |
| CommanderProps.IndexedAdd | Commander.cpp:176-187 | With an index read, `wifi add` refuses indices above 8 and otherwise stores. |
| CommanderProps.AddSsid | Commander.cpp:170-192 | `N ssid=v` stores v as slot N's ssid for N up to 8, and otherwise reports out of range. |
| CommanderProps.AddPass | Commander.cpp:170-197 | `N pass=v` stores v as slot N's password when v contains no `ssid=`. |
| CommanderProps.NegativeIndex | Commander.cpp:176-183 | `-N rest` reads the negative index -N. |
| CommanderProps.AddNegative | Commander.cpp:176-192 | A negative index passes the range check and stores at its `uint8_t` value. |
| CommanderProps.AddMinus248 | Commander.cpp:176-192 | `-248 ssid=v` writes slot 8. |
| CommanderProps.Unindexed | Commander.cpp:176-183 | An argument that does not start with a number reads index 0. |
| CommanderProps.AddWithoutIndex | Commander.cpp:176-183 | Such an argument reports a missing index and changes nothing. |
| CommanderProps.BootRoundTrip | Commander.cpp:107-125 | `=AP` or `=STA` sets the boot mode, and `sys boot` then shows it. |
| CommanderProps.HostnameRoundTrip | Commander.cpp:223-246 | A name of at most 32 bytes is stored and set on the interface, and is then shown twice. A longer name is refused and changes nothing. |
| CommanderProps.APnameRoundTrip | Commander.cpp:248-268 | The same for the access-point name, which is then shown. |
| CommanderProps.EraseAllForgets | Commander.cpp:135-142 | After `erase all` every slot, the hostname and the APname read empty, and boot shows STA. The interface is untouched. |
| CommanderProps.WidthsAreLongest | Commander.cpp:152-157 | The widths bound every ssid and password and are attained (or are 0). |
| CommanderProps.DashesAll | Commander.cpp:161 | n dashes, each `-`. |
| CommanderProps.RowsInOrder | Commander.cpp:163-167 | Row i is slot i's row, in order. |
| CommanderProps.RowLayout | Commander.cpp:160-166 | A row has the index right-aligned in two columns, the ssid from column 5 and the password after the ssid width. |
| CommanderProps.ListingFrame | Commander.cpp:158-162 | The listing is the header, ws+wp+10 dashes, a newline and then the rows. |
| CommanderProps.ListingRow | Commander.cpp:163-167 | Line ws+wp+12+i of the listing is slot i's row. |
| CommanderProps.WidthsAgree | Commander.cpp:152-157 | The widths depend only on the listed slots. |
| CommanderProps.RowsAgree | Commander.cpp:163-167 | The rows depend only on the listed slots. |
| CommanderProps.ListingSeesFirstEight | Commander.cpp:148-167 | The listing depends only on slots 0..7. |
| CommanderProps.ListingIgnoresSlotEight | Commander.cpp:148-167 | Writing slot 8 never changes the listing. |
| CommanderProps.SlotEightUnlisted | Commander.cpp:184-190 | `wifi add 8 ssid=v` stores into slot 8, and `wifi list` does not show it. |
| CommanderProps.RouteWifiAdd | Commander.cpp:78-95 | `wifi add a` calls `wifi_add` with a. |
| CommanderProps.ProcessWifiAdd | Commander.cpp:75-101 | `process("wifi add a")` does what `wifi_add(a)` does. |
| CommanderProps.AddLine | Commander.cpp:75-192 | The line `wifi add N ssid=v` with N up to 8 stores v in slot N and prints nothing. |
| CommanderProps.ListShowsSsid | Commander.cpp:163-166 | Slot n's ssid appears in its row of the listing from column 5. |
| CommanderProps.AddedIsListed | Commander.cpp:75-192 | After `wifi add N ssid=v` with N below 8, `wifi list` shows v in row N. |
| CommanderProps.RouteMissing | Commander.cpp:87-98 | An unmatched sub-command prints help, and the outer loop resumes after the row that ended the search. |
| CommanderProps.WifiUnknown | Commander.cpp:87-100 | An unknown `wifi` sub-command prints help, then `unknown command`. The `net` root is skipped on the way. |
| CommanderProps.NetUnknown | Commander.cpp:78-98 | An unknown `net` sub-command prints help, then reads past the table's end. |
| CommanderProps.NetRootKeepsHostname | Commander.cpp:82 | Removing `net` leaves `hostname` intact. |
| CommanderProps.HostnameRemovedTwice | Commander.cpp:90 | Every `hostname` in the argument is removed, not only the leading one. |
| CommanderProps.HostnameCutShort | Commander.cpp:82-93 | `net hostname=vhostname` sets the hostname to v. |

## Left out

- The LED status indicator (`LedStatus`) and its timer interrupt are not part of this model. They drive an output pin only.
- The `info()` logging to the serial port and the `Serial.printf` trace in the web server are left out. They are diagnostic output only.
- Failures of the Preferences library are left out. A write is modelled to succeed and return the value's length, and `clear()` to succeed. `PutWifiAt` takes a flag for a failed write.
- `delay(5000)` and `ESP.restart()` are not modelled as time or a restart. `sys reboot` sets a `restart` flag.
- `WiFi.setHostname` is modelled as taking effect at once, so `getHostname` reports the new name immediately.
- The default hostname the interface derives from its MAC address is left out. The board's hostname and MAC are parameters.
- Commander.RunWifiAdd: the range message at Commander.cpp:185 passes an integer to `%s`. The model prints the fixed text `(max 8)`.
- ArduinoString.ToInt: `atol` saturates at the 32-bit limits. The model reads an unbounded integer; only the `uint8_t` truncation is modelled.
- Credentials.WifiCredentials.constructor: only the low 8 bits of the persisted index are kept. A persisted value above 8 is not corrected. No declaration of `m_index` exists, so its `uint8_t` type is inferred from the return type of `index()` (WifiCredentials.cpp:9). A wider member would use the full persisted value, for example key `wifi300` instead of `wifi44`.
- ButtonTimer.Button.Pressed: the source reads `millis()` twice. The model uses one clock value per call.
- The long-press default: the header comment speaks of 2 s. The code's default of 3000 ms is modelled as the constructor's default threshold.
- Web.WebServer.Check: a client that stays connected without sending a full request blocks the source forever. The model takes the bytes a client sends before it leaves.
- Telnet.TelnetServer.CheckClient: whether the client is still connected is sampled once per poll (the `Poll` value), not at each test of `m_client`.
- Telnet option negotiation and the per-connection handlers are not part of this model. The events they receive (START, CHECK, STOP) are.
- The commands named only in the `Commander.hpp` comment (`net info`, `net status`, `uart2`) have no table entry and are not modelled.
- The header `WifiCredentials.hpp` and `WifiCredentials.cpp` disagree in both directions. Members the header declares but no file defines (`ssid`, `pass`, `hostname`, `APname`, `maxn`, `boot2ap`) are not modelled. The members the model covers (`m_index`, `index`, `next_index`, `get_wifi`, `put_wifi`) are defined in the .cpp but declared nowhere; they are modelled from their definitions.
- A `char` of a Dafny string stands for one byte of an Arduino `String`, so `|s|` is `length()`. Text is not encoded to UTF-8.
- NUL bytes: the model treats `'\0'` as an ordinary character. In the source, `String::indexOf` and `String::replace` search with `strstr`, and a `&s[i]` pointer passed as a `String` is copied with `strlen`; all of these stop at the first NUL. A request line that carries a NUL (WebServer.cpp:55 appends every byte) therefore behaves differently: for `GET /'a\0b'` the source finds no quote and serves `help`, while the model runs the command `a\0b`. The results below hold for NUL-free input only.
- Web.WebServer.Check: the printed text equals `Serve` only for requests without NUL bytes (see the NUL line above).
- Web.ReadRequest: the command equals `Parse` only for requests without NUL bytes.
- Web.QuotedLine: the quote search and the `%20` replacement match the source only for lines without NUL bytes.
- Web.QuotedRequest: has the NUL-free restriction of Web.QuotedLine.
- Web.QuotedServed: has the NUL-free restriction of Web.QuotedLine.
- Web.CutAtQuote: the first quote is found as `indexOf` finds it only when no NUL precedes it.
- Commander.StoreCredential: the value after `ssid=` or `pass=` is stored whole, while the source's `&s[si+5]` keeps only the bytes before the first NUL.
- Nvs.SsidWrite: the 31-byte limit and the returned count are exact only when each character of the value is one byte. A multi-byte UTF-8 character counts as one.
- Nvs.PassWrite: the 63-byte limit has the same byte-per-character reading as Nvs.SsidWrite.
- Credentials.PutWifiRejects: the 31-byte and 63-byte limits have the same byte-per-character reading.
- Credentials.PutWifiStores: the returned count has the same byte-per-character reading.
- CommanderProps.HostnameRoundTrip: the 32-byte limit has the same byte-per-character reading.
- CommanderProps.APnameRoundTrip: the 32-byte limit has the same byte-per-character reading.
- Reading past the end of the command table is undefined behaviour in the source. The model stops there with the action `Fault` and `ok == false`.
- CommanderProps.RouteWifiAdd: proved for arguments without a `w`, without `add` inside, and with no white space at either end.
- CommanderProps.AddLine: proved for values without `w` or `add` that do not end in white space.
- CommanderProps.AddedIsListed: has the same restrictions as AddLine.
- CommanderProps.ProcessWifiAdd: has the same restrictions as RouteWifiAdd.
- CommanderProps.AddPass: proved for values that contain no `ssid=`. When they do, the ssid branch wins, as the source's order says.
- CommanderProps.AddNegative: the slot is given as a parameter equal to the negative index modulo 256.
- CommanderProps.WifiUnknown: proved for sub-commands without a `w` and with no surrounding white space.
- CommanderProps.NetUnknown: proved for sub-commands without an `n` and with no surrounding white space.
- CommanderProps.HostnameCutShort: proved for names without `n` or `h` that do not end in white space.
- CommanderProps.ListingFrame: states the layout position by position rather than as one sequence equation.
- CommanderProps.ListingRow: states the row position by position rather than as one sequence equation.
- Web.QuotedLine: proved for text without a quote or a `G`.
- Web.QuotedRequest: has the same restrictions as QuotedLine.
- Web.QuotedLineWins: has the same restrictions as QuotedLine.
- Web.FaviconCommand: proved for requests whose later lines do not start with `GET /`.
- Web.DefaultIsHelp: has the same restriction as FaviconCommand.
- Web.DefaultServed: has the same restriction as FaviconCommand.
- Web.FaviconServed: has the same restriction as FaviconCommand.
- Web.QuotedServed: has the same restrictions as QuotedLine and FaviconCommand.
