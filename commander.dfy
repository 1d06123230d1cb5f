/** The command interpreter (`Commander`): a line of text is matched against
    the command table (a root word such as "wifi" followed by one of its
    sub-commands such as "add"), and the matching handler runs on what is
    left of the line.  Everything a command prints is a sequence of strings,
    one element per `printf`; the settings namespace and the network
    interface are the state a handler may change.

    The matching itself is specified by `Route`, which lists the actions
    `process()` takes for a line (help listings, "unknown command", at most
    one handler call); `Perform` gives their effect.  The methods below
    follow the source's loops and are proved to do what `Route` and
    `Perform` say. */
module Commander {
  import opened ArduinoString
  import opened Prefs
  import opened Nvs

  datatype Option<T> = None | Some(value: T)

  /** The nine command functions of the table. */
  datatype Handler =
    | SysBoot | SysReboot | SysEraseAll
    | WifiList | WifiAdd | WifiErase
    | NetHostname | NetAPname | NetMac

  /** One row of `commands[]`: a root command has no function. */
  datatype Entry = Entry(cmd: string, handler: Option<Handler>, help: Option<string>)

  /** `commands[]` without its `{NULL, NULL}` terminator, which sits at index
      `|Commands|`. */
  const Commands: seq<Entry> := [
    Entry("?", None, None),
    Entry("help", None, None),
    Entry("sys", None, None),
    Entry("boot", Some(SysBoot), Some("<boot | boot=AP | boot=STA>")),
    Entry("reboot", Some(SysReboot), None),
    Entry("erase all", Some(SysEraseAll), None),
    Entry("wifi", None, None),
    Entry("list", Some(WifiList), None),
    Entry("add", Some(WifiAdd), Some("add # <ssid=ssidname | pass=password>")),
    Entry("erase", Some(WifiErase), Some("erase #")),
    Entry("net", None, None),
    Entry("hostname", Some(NetHostname), Some("<hostname | hostname=myname>")),
    Entry("APname", Some(NetAPname), Some("<APname | APname=myapname>")),
    Entry("mac", Some(NetMac), None)
  ]

  predicate IsLeaf(t: seq<Entry>, i: nat) {
    i < |t| && t[i].handler.Some?
  }

  // ---------------------------------------------------------------------------
  // What process() does with a line
  // ---------------------------------------------------------------------------

  /** One step of `process()`: print the help listing, print "unknown
      command", call a handler with its argument, or read past the end of
      the table (the behaviour of the source is then undefined). */
  datatype Action = Help | Bad | Invoke(handler: Handler, arg: string) | Fault

  /** The outer loop of `process()` at row `i` with the line `s`.  A root
      whose word starts the line has every occurrence of that word removed;
      it needs a space after it and something after the space.  If none of
      its sub-commands matches, the help listing is printed and the outer
      loop goes on one row past the row that ended the sub-command search,
      which skips that row. */
  function Scan(t: seq<Entry>, i: nat, s: string): seq<Action>
    requires i <= |t| + 1
    decreases |t| + 1 - i, 2
  {
    if i > |t| then [Fault]
    else if i == |t| then [Bad]
    else if t[i].handler.Some? || !StartsWith(s, t[i].cmd) then Scan(t, i + 1, s)
    else Enter(t, i, s)
  }

  /** The root at row `i` starts the line: its word is removed, and the
      sub-commands are searched with what remains. */
  function Enter(t: seq<Entry>, i: nat, s: string): seq<Action>
    requires i < |t|
    decreases |t| + 1 - i, 1
  {
    var s1 := ReplaceAll(s, t[i].cmd, "");
    if CharAt(s1, 0) != ' ' then [Help]
    else
      var s2 := Trim(s1);
      if CharAt(s2, 0) == '\0' then [Help]
      else Leaves(t, i + 1, s2)
  }

  /** The inner loop of `process()`: the sub-commands from row `j` on. */
  function Leaves(t: seq<Entry>, j: nat, s: string): seq<Action>
    requires j <= |t|
    decreases |t| + 1 - j, 0
  {
    if IsLeaf(t, j) then
      if StartsWith(s, t[j].cmd) then [Invoke(t[j].handler.value, Trim(ReplaceAll(s, t[j].cmd, "")))]
      else Leaves(t, j + 1, s)
    else [Help] + Scan(t, j + 1, s)
  }

  /** The actions `process()` takes for the line `s`. */
  function Route(s: string): seq<Action> {
    Scan(Commands, 0, s)
  }

  // ---------------------------------------------------------------------------
  // Output texts
  // ---------------------------------------------------------------------------

  const BadText: string := "unknown command\n\n"
  const MissingIndexText: string := "missing index# or index# not valid\n"
  const AddRangeText: string := "index# is out of range (max 8)\n"
  const EraseRangeText: string := "index# is out of range\n"
  const HostnameTooLongText: string := "hostname too long (32 chars max)\n"
  const APnameTooLongText: string := "APname too long (32 chars max)\n"

  /** The longest hostname or access-point name `net` accepts. */
  const MaxNameLen: nat := 32

  /** The root row that `help()` has last seen at row `i` (its `ii`). */
  function RootBefore(t: seq<Entry>, i: nat): (r: nat)
    requires i < |t|
    ensures r <= i
  {
    if t[i].handler.None? || i == 0 then (if t[i].handler.None? then i else 0)
    else RootBefore(t, i - 1)
  }

  /** The help line of a sub-command: the root, then its help text or its own word. */
  function HelpLine(root: string, e: Entry): string {
    "  " + root + " " + (if e.help.Some? then e.help.value else e.cmd) + "\n"
  }

  /** The help lines of the sub-commands among the first `n` rows. */
  function HelpLines(t: seq<Entry>, n: nat): seq<string>
    requires n <= |t|
  {
    if n == 0 then []
    else HelpLines(t, n - 1) + (if IsLeaf(t, n - 1) then [HelpLine(t[RootBefore(t, n - 1)].cmd, t[n - 1])] else [])
  }

  /** What `help()` prints. */
  function HelpText(): seq<string> {
    ["available commands:\n"] + HelpLines(Commands, |Commands|)
  }

  // ---------------------------------------------------------------------------
  // The handlers
  // ---------------------------------------------------------------------------

  /** What the handlers can see and change: the settings namespace, the
      hostname the network interface reports, its MAC address, and whether a
      restart of the chip has been requested. */
  datatype Env = Env(settings: Namespace, hostname: string, mac: string, restart: bool)

  /** The state after a handler and what it printed. */
  datatype Outcome = Outcome(env: Env, out: seq<string>)

  /** `sys_boot`: no argument shows the boot mode; "=AP" or "=STA" sets it. */
  function BootReply(s: string, e: Env): Outcome {
    if CharAt(s, 0) == '\0' then Outcome(e, ["boot: " + (if BootIn(e.settings) == AP then "AP" else "STA") + "\n"])
    else if StartsWith(s, "=AP") then Outcome(e.(settings := PutBoot(e.settings, AP).entries), [])
    else if StartsWith(s, "=STA") then Outcome(e.(settings := PutBoot(e.settings, STA).entries), [])
    else Outcome(e, HelpText())
  }

  /** `sys_reboot`: takes no argument; announces the restart and restarts. */
  function RebootReply(s: string, e: Env): Outcome {
    if CharAt(s, 0) != '\0' then Outcome(e, [BadText])
    else Outcome(e.(restart := true), ["rebooting in 5 seconds..."])
  }

  /** `sys_erase_all`: takes no argument; empties the settings namespace. */
  function EraseAllReply(s: string, e: Env): Outcome {
    if CharAt(s, 0) != '\0' then Outcome(e, [BadText])
    else Outcome(e.(settings := map[]), ["erasing all stored data...", "done.\n"])
  }

  function Max(a: nat, b: nat): nat {
    if a < b then b else a
  }

  /** The widest ssid (resp. password) among slots `0..n-1`. */
  function SsidWidth(m: Namespace, n: nat): nat
    requires n <= 256
  {
    if n == 0 then 0 else Max(SsidWidth(m, n - 1), |SsidIn(m, n - 1)|)
  }

  function PassWidth(m: Namespace, n: nat): nat
    requires n <= 256
  {
    if n == 0 then 0 else Max(PassWidth(m, n - 1), |PassIn(m, n - 1)|)
  }

  function Spaces(n: nat): string {
    seq(n, _ => ' ')
  }

  /** `%-Ns`: `s` padded with spaces on the right to at least `w` characters. */
  function PadRight(s: string, w: nat): string {
    if |s| < w then s + Spaces(w - |s|) else s
  }

  /** `%Nd`: `s` padded with spaces on the left to at least `w` characters. */
  function PadLeft(s: string, w: nat): string {
    if |s| < w then Spaces(w - |s|) + s else s
  }

  /** `n` dashes, printed one at a time. */
  function Dashes(n: nat): seq<string> {
    if n == 0 then [] else Dashes(n - 1) + ["-"]
  }

  function ListHeader(ws: nat, wp: nat): string {
    "  #  " + PadRight("SSID", ws) + "  " + PadRight("PASS", wp) + " \n"
  }

  function ListRow(m: Namespace, i: uint8, ws: nat, wp: nat): string {
    " " + PadLeft(DecimalString(i), 2) + "  " + PadRight(SsidIn(m, i), ws) + "  " + PadRight(PassIn(m, i), wp) + " \n"
  }

  /** The rows of slots `0..n-1`. */
  function ListRows(m: Namespace, n: nat, ws: nat, wp: nat): seq<string>
    requires n <= 256
  {
    if n == 0 then [] else ListRows(m, n - 1, ws, wp) + [ListRow(m, n - 1, ws, wp)]
  }

  /** The table `wifi_list` prints: `wifimaxn()` rows, the column widths set by
      the longest ssid and password among them. */
  function Listing(m: Namespace): seq<string> {
    var ws := SsidWidth(m, MaxWifiIndex as nat);
    var wp := PassWidth(m, MaxWifiIndex as nat);
    [ListHeader(ws, wp)] + Dashes(ws + wp + 10) + ["\n"] + ListRows(m, MaxWifiIndex as nat, ws, wp)
  }

  /** `wifi_list`: takes no argument. */
  function ListReply(s: string, e: Env): Outcome {
    if CharAt(s, 0) != '\0' then Outcome(e, [BadText])
    else Outcome(e, Listing(e.settings))
  }

  /** The index `wifi_add` reads: 0 when the argument opens with "0 ",
      otherwise `toInt` of the argument. */
  function AddIndex(s: string): int {
    if Substring(s, 0, 2) == "0 " then 0 else ToInt(s)
  }

  /** `wifi_add`: "N ssid=value" or "N pass=value".  The index is read with
      `toInt`, except that "0 " is accepted as index 0; an index of 0 read by
      `toInt` is refused, and so is an index above 8.  The index is passed on
      as a `uint8_t`. */
  function AddReply(s: string, e: Env): Outcome {
    IndexedReply(s, Substring(s, 0, 2) == "0 ", AddIndex(s), e)
  }

  /** `wifi_add` once the index `idx` is read; `zero` tells whether the
      argument opened with "0 ". */
  function IndexedReply(s: string, zero: bool, idx: int, e: Env): Outcome {
    if !zero && idx == 0 then Outcome(e, [MissingIndexText])
    else if idx > MaxWifiIndex as int then Outcome(e, [AddRangeText])
    else StoreReply(s, idx % 256, e)
  }

  /** The rest of `wifi_add` once the index is accepted: the value is
      everything after the first "ssid=" (else the first "pass="), which must
      not open the argument; with neither, the help listing. */
  function StoreReply(s: string, slot: uint8, e: Env): Outcome {
    var si := IndexOf(s, "ssid=");
    if si > 0 then Outcome(e.(settings := PutSsid(e.settings, slot, s[si + 5..]).entries), [])
    else
      var pi := IndexOf(s, "pass=");
      if pi > 0 then Outcome(e.(settings := PutPass(e.settings, slot, s[pi + 5..]).entries), [])
      else Outcome(e, HelpText())
  }

  /** `wifi_erase`: the argument must begin with a space; then "0" or a
      number read with `toInt`; the slot's ssid and password are set empty. */
  function EraseReply(s: string, e: Env): Outcome {
    if CharAt(s, 0) != ' ' then Outcome(e, HelpText())
    else
      var t := Trim(s);
      var idx := EraseIndex(t);
      if t != "0" && idx == 0 then Outcome(e, [MissingIndexText])
      else if idx > MaxWifiIndex as int then Outcome(e, [EraseRangeText])
      else ClearReply(idx % 256, e)
  }

  /** The index `wifi_erase` reads from its trimmed argument: 0 for "0",
      otherwise `toInt`. */
  function EraseIndex(t: string): int {
    if t != "0" then ToInt(t) else 0
  }

  /** The slot's ssid and password set to the empty string. */
  function ClearReply(slot: uint8, e: Env): Outcome {
    Outcome(e.(settings := PutPass(PutSsid(e.settings, slot, "").entries, slot, "").entries), [])
  }

  /** `net_hostname`: no argument shows the interface's and the stored
      hostname; "=name" stores a name of at most 32 characters and hands it
      to the interface. */
  function HostnameReply(s: string, e: Env): Outcome {
    if CharAt(s, 0) == '\0' then Outcome(e, ["hardware: " + e.hostname + "  stored: " + HostnameIn(e.settings) + "\n"])
    else if CharAt(s, 0) == '=' then
      var v := Substring(s, 1, |s|);
      if |v| > MaxNameLen then Outcome(e, [HostnameTooLongText])
      else Outcome(e.(settings := PutHostname(e.settings, v).entries, hostname := v), [])
    else Outcome(e, HelpText())
  }

  /** `net_APname`: no argument shows the stored access-point name; "=name"
      stores a name of at most 32 characters. */
  function APnameReply(s: string, e: Env): Outcome {
    if CharAt(s, 0) == '\0' then Outcome(e, [APnameIn(e.settings) + "\n"])
    else if CharAt(s, 0) == '=' then
      var v := Substring(s, 1, |s|);
      if |v| > MaxNameLen then Outcome(e, [APnameTooLongText])
      else Outcome(e.(settings := PutAPname(e.settings, v).entries), [])
    else Outcome(e, HelpText())
  }

  /** `net_mac`: takes no argument; shows the MAC address. */
  function MacReply(s: string, e: Env): Outcome {
    if CharAt(s, 0) != '\0' then Outcome(e, HelpText())
    else Outcome(e, [e.mac + "\n"])
  }

  function Handle(h: Handler, arg: string, e: Env): Outcome {
    match h
    case SysBoot => BootReply(arg, e)
    case SysReboot => RebootReply(arg, e)
    case SysEraseAll => EraseAllReply(arg, e)
    case WifiList => ListReply(arg, e)
    case WifiAdd => AddReply(arg, e)
    case WifiErase => EraseReply(arg, e)
    case NetHostname => HostnameReply(arg, e)
    case NetAPname => APnameReply(arg, e)
    case NetMac => MacReply(arg, e)
  }

  /** The state after `process()`, what it printed, and `ok == false` when it
      read past the end of the table. */
  datatype Reply = Reply(env: Env, out: seq<string>, ok: bool)

  function Then(out: seq<string>, r: Reply): Reply {
    Reply(r.env, out + r.out, r.ok)
  }

  /** The effect of a sequence of actions, in order. */
  function Perform(acts: seq<Action>, e: Env): Reply
    decreases |acts|
  {
    if acts == [] then Reply(e, [], true)
    else
      match acts[0]
      case Fault => Reply(e, [], false)
      case Help => Then(HelpText(), Perform(acts[1..], e))
      case Bad => Then([BadText], Perform(acts[1..], e))
      case Invoke(h, arg) =>
        var o := Handle(h, arg, e);
        Then(o.out, Perform(acts[1..], o.env))
  }

  /** `Commander::process(client, s)`. */
  function Process(s: string, e: Env): Reply {
    Perform(Route(s), e)
  }

  // ---------------------------------------------------------------------------
  // The interpreter as the source runs it
  // ---------------------------------------------------------------------------

  /** The network interface and the chip: `WiFi.getHostname()`,
      `WiFi.setHostname()`, `WiFi.macAddress()` and `ESP.restart()`. */
  class Board {
    var hostname: string
    const mac: string
    var restart: bool

    constructor (hostname: string, mac: string)
      ensures this.hostname == hostname && this.mac == mac && !restart
    {
      this.hostname := hostname;
      this.mac := mac;
      restart := false;
    }
  }

  function EnvOf(settings: NvsSettings, board: Board): Env
    reads settings, board
  {
    Env(settings.entries, board.hostname, board.mac, board.restart)
  }

  /** `help()`. */
  method PrintHelp() returns (out: seq<string>)
    ensures out == HelpText()
  {
    out := HelpOf(Commands);
  }

  /** The loop of `help()` over a command table `t`. */
  method HelpOf(t: seq<Entry>) returns (out: seq<string>)
    ensures out == ["available commands:\n"] + HelpLines(t, |t|)
  {
    out := ["available commands:\n"];
    var i := 0;
    var ii := 0;
    while i < |t|
      invariant i <= |t|
      invariant ii == if i == 0 then 0 else RootBefore(t, i - 1)
      invariant out == ["available commands:\n"] + HelpLines(t, i)
    {
      if t[i].handler.None? {
        ii := i;
      } else {
        out := out + ["  " + t[ii].cmd + " " + (if t[i].help.Some? then t[i].help.value else t[i].cmd) + "\n"];
      }
      i := i + 1;
    }
  }

  /** `bad()`. */
  method PrintBad() returns (out: seq<string>)
    ensures out == [BadText]
  {
    out := ["unknown command\n\n"];
  }

  method RunSysBoot(s: string, settings: NvsSettings, board: Board) returns (out: seq<string>)
    modifies settings
    ensures Outcome(EnvOf(settings, board), out) == BootReply(s, old(EnvOf(settings, board)))
  {
    if CharAt(s, 0) == '\0' {
      var mode := settings.Boot();
      out := ["boot: " + (if mode == AP then "AP" else "STA") + "\n"];
    } else if StartsWith(s, "=AP") {
      var _ := settings.SetBoot(AP);
      out := [];
    } else if StartsWith(s, "=STA") {
      var _ := settings.SetBoot(STA);
      out := [];
    } else {
      out := PrintHelp();
    }
  }

  method RunSysReboot(s: string, settings: NvsSettings, board: Board) returns (out: seq<string>)
    modifies board
    ensures Outcome(EnvOf(settings, board), out) == RebootReply(s, old(EnvOf(settings, board)))
  {
    if CharAt(s, 0) != '\0' {
      out := PrintBad();
      return;
    }
    out := ["rebooting in 5 seconds..."];
    board.restart := true;
  }

  method RunSysEraseAll(s: string, settings: NvsSettings, board: Board) returns (out: seq<string>)
    modifies settings
    ensures Outcome(EnvOf(settings, board), out) == EraseAllReply(s, old(EnvOf(settings, board)))
  {
    if CharAt(s, 0) != '\0' {
      out := PrintBad();
      return;
    }
    out := ["erasing all stored data..."];
    var _ := settings.EraseAll();
    out := out + ["done.\n"];
  }

  /** `wifi_list`: three loops, as in the source (widths, dashes, rows). */
  method RunWifiList(s: string, settings: NvsSettings) returns (out: seq<string>)
    ensures out == ListReply(s, Env(settings.entries, "", "", false)).out
  {
    if CharAt(s, 0) != '\0' {
      out := PrintBad();
      return;
    }
    var max := settings.WifiMaxN();
    var maxslen, maxplen := ListWidths(settings);
    out := [ListHeader(maxslen, maxplen)];
    var dashes := PrintDashes(maxslen + maxplen + 10);
    out := out + dashes + ["\n"];
    ghost var top := out;
    var i := 0;
    while i < max
      invariant i <= max
      invariant out == top + ListRows(settings.entries, i, maxslen, maxplen)
    {
      out := out + [ListRow(settings.entries, i, maxslen, maxplen)];
      i := i + 1;
    }
  }

  /** The first loop of `wifi_list`: the widest ssid and password of the listed slots. */
  method ListWidths(settings: NvsSettings) returns (maxslen: nat, maxplen: nat)
    ensures maxslen == SsidWidth(settings.entries, MaxWifiIndex as nat)
    ensures maxplen == PassWidth(settings.entries, MaxWifiIndex as nat)
  {
    var max := settings.WifiMaxN();
    maxslen, maxplen := 0, 0;
    var i := 0;
    while i < max
      invariant i <= max
      invariant maxslen == SsidWidth(settings.entries, i) && maxplen == PassWidth(settings.entries, i)
    {
      var sl := |settings.Ssid(i)|;
      var pl := |settings.Pass(i)|;
      if sl > maxslen { maxslen := sl; }
      if pl > maxplen { maxplen := pl; }
      i := i + 1;
    }
  }

  /** The second loop of `wifi_list`: `n` separate dashes. */
  method PrintDashes(n: nat) returns (out: seq<string>)
    ensures out == Dashes(n)
  {
    out := [];
    var i := n;
    while i > 0
      invariant 0 <= i <= n
      invariant out == Dashes(n - i)
    {
      out := out + ["-"];
      i := i - 1;
    }
  }

  method RunWifiAdd(s: string, settings: NvsSettings, board: Board) returns (out: seq<string>)
    modifies settings
    ensures Outcome(EnvOf(settings, board), out) == AddReply(s, old(EnvOf(settings, board)))
  {
    var idx := 0;
    if Substring(s, 0, 2) != "0 " {
      idx := ToInt(s);
      if idx == 0 {
        return [MissingIndexText];
      }
    }
    assert idx == AddIndex(s);
    if idx > settings.WifiMaxN() as int {
      return [AddRangeText];
    }
    out := StoreCredential(s, idx % 256, settings, board);
  }

  method StoreCredential(s: string, slot: uint8, settings: NvsSettings, board: Board) returns (out: seq<string>)
    modifies settings
    ensures Outcome(EnvOf(settings, board), out) == StoreReply(s, slot, old(EnvOf(settings, board)))
  {
    var si := IndexOf(s, "ssid=");
    if si > 0 {
      var _ := settings.SetSsid(slot, s[si + 5..]);
      return [];
    }
    si := IndexOf(s, "pass=");
    if si > 0 {
      var _ := settings.SetPass(slot, s[si + 5..]);
      return [];
    }
    out := PrintHelp();
  }

  method RunWifiErase(s0: string, settings: NvsSettings, board: Board) returns (out: seq<string>)
    modifies settings
    ensures Outcome(EnvOf(settings, board), out) == EraseReply(s0, old(EnvOf(settings, board)))
  {
    if CharAt(s0, 0) != ' ' {
      out := PrintHelp();
      return;
    }
    var s := Trim(s0);
    var idx := 0;
    if s != "0" {
      idx := ToInt(s);
      if idx == 0 {
        return [MissingIndexText];
      }
    }
    assert idx == EraseIndex(s);
    if idx > settings.WifiMaxN() as int {
      return [EraseRangeText];
    }
    out := ClearCredential(idx % 256, settings, board);
  }

  method ClearCredential(slot: uint8, settings: NvsSettings, board: Board) returns (out: seq<string>)
    modifies settings
    ensures Outcome(EnvOf(settings, board), out) == ClearReply(slot, old(EnvOf(settings, board)))
  {
    var _ := settings.SetSsid(slot, "");
    var _ := settings.SetPass(slot, "");
    out := [];
  }

  method RunNetHostname(s: string, settings: NvsSettings, board: Board) returns (out: seq<string>)
    modifies settings, board
    ensures Outcome(EnvOf(settings, board), out) == HostnameReply(s, old(EnvOf(settings, board)))
  {
    if CharAt(s, 0) == '\0' {
      out := ["hardware: " + board.hostname + "  stored: " + settings.Hostname() + "\n"];
      return;
    }
    if CharAt(s, 0) == '=' {
      var v := Substring(s, 1, |s|);
      if |v| > MaxNameLen {
        out := [HostnameTooLongText];
        return;
      }
      var _ := settings.SetHostname(v);
      board.hostname := v;
      out := [];
      return;
    }
    out := PrintHelp();
  }

  method RunNetAPname(s: string, settings: NvsSettings, board: Board) returns (out: seq<string>)
    modifies settings
    ensures Outcome(EnvOf(settings, board), out) == APnameReply(s, old(EnvOf(settings, board)))
  {
    if CharAt(s, 0) == '\0' {
      out := [settings.APname() + "\n"];
      return;
    }
    if CharAt(s, 0) == '=' {
      var v := Substring(s, 1, |s|);
      if |v| > MaxNameLen {
        out := [APnameTooLongText];
        return;
      }
      var _ := settings.SetAPname(v);
      out := [];
      return;
    }
    out := PrintHelp();
  }

  method RunNetMac(s: string, board: Board) returns (out: seq<string>)
    ensures out == MacReply(s, Env(map[], "", board.mac, false)).out
  {
    if CharAt(s, 0) != '\0' {
      out := PrintHelp();
      return;
    }
    out := [board.mac + "\n"];
  }

  /** The call through `commands[i].func`. */
  method Dispatch(h: Handler, arg: string, settings: NvsSettings, board: Board) returns (out: seq<string>)
    modifies settings, board
    ensures Outcome(EnvOf(settings, board), out) == Handle(h, arg, old(EnvOf(settings, board)))
  {
    match h
    case SysBoot => out := RunSysBoot(arg, settings, board);
    case SysReboot => out := RunSysReboot(arg, settings, board);
    case SysEraseAll => out := RunSysEraseAll(arg, settings, board);
    case WifiList => out := RunWifiList(arg, settings);
    case WifiAdd => out := RunWifiAdd(arg, settings, board);
    case WifiErase => out := RunWifiErase(arg, settings, board);
    case NetHostname => out := RunNetHostname(arg, settings, board);
    case NetAPname => out := RunNetAPname(arg, settings, board);
    case NetMac => out := RunNetMac(arg, board);
  }

  /** The steps of `Perform` that `RunProcess` takes. */
  lemma PerformFirst(a: Action, rest: seq<Action>, e: Env)
    requires !a.Fault?
    ensures Perform([a] + rest, e) ==
      match a
      case Help => Then(HelpText(), Perform(rest, e))
      case Bad => Then([BadText], Perform(rest, e))
      case Invoke(h, arg) => Then(Handle(h, arg, e).out, Perform(rest, Handle(h, arg, e).env))
      case Fault => Reply(e, [], false)
  {
    assert ([a] + rest)[1..] == rest;
  }

  lemma ThenThen(a: seq<string>, b: seq<string>, r: Reply)
    ensures Then(a, Then(b, r)) == Then(a + b, r)
  {
    assert a + (b + r.out) == (a + b) + r.out;
  }

  /** `Commander::process`. */
  method RunProcess(line: string, settings: NvsSettings, board: Board) returns (out: seq<string>, ok: bool)
    modifies settings, board
    ensures Reply(EnvOf(settings, board), out, ok) == Process(line, old(EnvOf(settings, board)))
  {
    out, ok := ProcessTable(Commands, line, settings, board);
  }

  /** The outer loop of `process()` over a command table `t`, changing the
      line as it goes.  `ok` is false when it runs past the terminator. */
  method ProcessTable(t: seq<Entry>, line: string, settings: NvsSettings, board: Board) returns (out: seq<string>, ok: bool)
    modifies settings, board
    ensures Reply(EnvOf(settings, board), out, ok) == Perform(Scan(t, 0, line), old(EnvOf(settings, board)))
  {
    ghost var e0 := EnvOf(settings, board);
    var s := line;
    var i := 0;
    out := [];
    while i < |t|
      invariant i <= |t| + 1
      invariant EnvOf(settings, board) == e0
      invariant Perform(Scan(t, 0, line), e0) == Then(out, Perform(Scan(t, i, s), e0))
      decreases |t| + 1 - i
    {
      if t[i].handler.Some? || !StartsWith(s, t[i].cmd) {
        i := i + 1;
        continue;
      }
      assert Scan(t, i, s) == Enter(t, i, s);
      var o, stop, next, rest := RunEnter(t, i, s, settings, board);
      if stop {
        return out + o, true;
      }
      ThenThen(out, o, Perform(Scan(t, next, rest), e0));
      out := out + o;
      s := rest;
      i := next;
    }
    if i > |t| {
      assert Scan(t, i, s) == [Fault];
      return out, false;
    }
    assert Scan(t, i, s) == [Bad] + [];
    PerformFirst(Bad, [], e0);
    ThenThen(out, [BadText], Perform([], e0));
    var b := PrintBad();
    out := out + b;
    ok := true;
  }

  /** One root of the outer loop that starts the line: its word removed,
      then either the help listing (`stop`), a handler (`stop`), or the help
      listing and the outer loop resuming at row `next` with the line `rest`. */
  method RunEnter(t: seq<Entry>, i: nat, s: string, settings: NvsSettings, board: Board)
    returns (out: seq<string>, stop: bool, next: nat, rest: string)
    requires i < |t|
    modifies settings, board
    ensures stop ==> Reply(EnvOf(settings, board), out, true) == Perform(Enter(t, i, s), old(EnvOf(settings, board)))
    ensures !stop ==> && EnvOf(settings, board) == old(EnvOf(settings, board))
                      && i < next <= |t| + 1
                      && Perform(Enter(t, i, s), old(EnvOf(settings, board))) == Then(out, Perform(Scan(t, next, rest), old(EnvOf(settings, board))))
  {
    ghost var e0 := EnvOf(settings, board);
    rest := ReplaceAll(s, t[i].cmd, "");
    if CharAt(rest, 0) != ' ' {
      assert Enter(t, i, s) == [Help] + [];
      out := PrintHelpAfter([], e0);
      assert [] + out == out;
      return out, true, i, rest;
    }
    rest := Trim(rest);
    if CharAt(rest, 0) == '\0' {
      assert Enter(t, i, s) == [Help] + [];
      out := PrintHelpAfter([], e0);
      assert [] + out == out;
      return out, true, i, rest;
    }
    assert Enter(t, i, s) == Leaves(t, i + 1, rest);
    var done;
    out, done, next := SubCommand(t, i + 1, rest, settings, board);
    stop := done;
  }

  /** `help()` printed after `out`, as the last action of `process()`. */
  method PrintHelpAfter(out: seq<string>, ghost e: Env) returns (out': seq<string>)
    ensures Reply(e, out', true) == Then(out, Perform([Help] + [], e))
  {
    PerformFirst(Help, [], e);
    ThenThen(out, HelpText(), Perform([], e));
    var h := PrintHelp();
    out' := out + h;
  }

  /** The inner loop of `process()`: the sub-commands of a root from row `i`
      on.  Either one of them starts the line and its handler runs (`done`),
      or the help listing is printed and the outer loop resumes at `next`,
      one row past the row that ended the search. */
  method SubCommand(t: seq<Entry>, i0: nat, s: string, settings: NvsSettings, board: Board)
    returns (out: seq<string>, done: bool, next: nat)
    requires 0 < i0 <= |t|
    modifies settings, board
    ensures done ==> Reply(EnvOf(settings, board), out, true) == Perform(Leaves(t, i0, s), old(EnvOf(settings, board)))
    ensures !done ==> && EnvOf(settings, board) == old(EnvOf(settings, board))
                      && i0 < next <= |t| + 1
                      && Perform(Leaves(t, i0, s), old(EnvOf(settings, board))) == Then(out, Perform(Scan(t, next, s), old(EnvOf(settings, board))))
  {
    ghost var e0 := EnvOf(settings, board);
    var i := i0;
    while IsLeaf(t, i)
      invariant i0 <= i <= |t|
      invariant Leaves(t, i0, s) == Leaves(t, i, s)
      decreases |t| - i
    {
      if StartsWith(s, t[i].cmd) {
        var h, arg := t[i].handler.value, Trim(ReplaceAll(s, t[i].cmd, ""));
        assert Leaves(t, i, s) == [Invoke(h, arg)] + [];
        PerformFirst(Invoke(h, arg), [], e0);
        out := Dispatch(h, arg, settings, board);
        return out, true, i;
      }
      i := i + 1;
    }
    assert Leaves(t, i, s) == [Help] + Scan(t, i + 1, s);
    PerformFirst(Help, Scan(t, i + 1, s), e0);
    out := PrintHelp();
    return out, false, i + 1;
  }
}
