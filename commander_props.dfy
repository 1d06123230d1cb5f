/** What the command interpreter guarantees, and where it surprises: the
    shape of every route through the table, which lines are unknown, what
    each handler stores and shows, and worked examples of lines as a user
    would type them. */
module CommanderProps {
  import opened ArduinoString
  import opened Prefs
  import opened Nvs
  import opened Commander

  // ---------------------------------------------------------------------------
  // The shape of a route
  // ---------------------------------------------------------------------------

  /** Help listings, then one last action; a handler call is only ever the
      last action and gets a trimmed argument. */
  predicate WellShaped(acts: seq<Action>) {
    && |acts| > 0
    && (forall k :: 0 <= k < |acts| - 1 ==> acts[k] == Help)
    && (acts[|acts| - 1].Invoke? ==> Trim(acts[|acts| - 1].arg) == acts[|acts| - 1].arg)
  }

  lemma HelpThenShaped(rest: seq<Action>)
    requires WellShaped(rest)
    ensures WellShaped([Help] + rest)
  {
    var r := [Help] + rest;
    assert forall k :: 1 <= k < |r| ==> r[k] == rest[k - 1];
  }

  lemma {:induction false} ScanShaped(t: seq<Entry>, i: nat, s: string)
    requires i <= |t| + 1
    ensures WellShaped(Scan(t, i, s))
    decreases |t| + 1 - i, 2
  {
    if i > |t| || i == |t| {
    } else if t[i].handler.Some? || !StartsWith(s, t[i].cmd) {
      ScanShaped(t, i + 1, s);
    } else {
      EnterShaped(t, i, s);
    }
  }

  lemma {:induction false} EnterShaped(t: seq<Entry>, i: nat, s: string)
    requires i < |t|
    ensures WellShaped(Enter(t, i, s))
    decreases |t| + 1 - i, 1
  {
    var s1 := ReplaceAll(s, t[i].cmd, "");
    if CharAt(s1, 0) == ' ' && CharAt(Trim(s1), 0) != '\0' {
      LeavesShaped(t, i + 1, Trim(s1));
    }
  }

  lemma {:induction false} LeavesShaped(t: seq<Entry>, j: nat, s: string)
    requires j <= |t|
    ensures WellShaped(Leaves(t, j, s))
    decreases |t| + 1 - j, 0
  {
    if IsLeaf(t, j) {
      if StartsWith(s, t[j].cmd) {
        TrimIdempotent(ReplaceAll(s, t[j].cmd, ""));
      } else {
        LeavesShaped(t, j + 1, s);
      }
    } else {
      ScanShaped(t, j + 1, s);
      HelpThenShaped(Scan(t, j + 1, s));
    }
  }

  lemma ShapedLast(acts: seq<Action>)
    requires WellShaped(acts)
    ensures var last := acts[|acts| - 1];
      last.Invoke? ==> CharAt(last.arg, 0) != ' '
  {
    var last := acts[|acts| - 1];
    if last.Invoke? {
      TrimmedStartsNonSpace(last.arg);
    }
  }

  /** Whatever the line, `process()` prints zero or more help listings and
      then takes one last action; at most one handler runs, and its argument
      is trimmed, so it never starts with a space. */
  lemma RouteShape(s: string)
    ensures WellShaped(Route(s))
    ensures var last := Route(s)[|Route(s)| - 1];
      last.Invoke? ==> CharAt(last.arg, 0) != ' '
  {
    ScanShaped(Commands, 0, s);
    ShapedLast(Route(s));
  }

  /** The help text printed `k` times. */
  function Helps(k: nat): seq<string> {
    if k == 0 then [] else HelpText() + Helps(k - 1)
  }

  /** A single action: a handler call changes what the handler changes, a
      read past the end of the table reports failure. */
  lemma PerformOne(a: Action, e: Env)
    ensures Perform([a], e).env == (if a.Invoke? then Handle(a.handler, a.arg, e).env else e)
    ensures Perform([a], e).ok == !a.Fault?
  {
    assert [a][1..] == [];
  }

  /** Help listings change nothing, so only the last action of a well-shaped
      route can change the state. */
  lemma {:induction false} PerformShaped(acts: seq<Action>, e: Env)
    requires WellShaped(acts)
    ensures Perform(acts, e) == Then(Helps(|acts| - 1), Perform([acts[|acts| - 1]], e))
    decreases |acts|
  {
    if |acts| > 1 {
      var rest := acts[1..];
      assert acts == [Help] + rest;
      assert WellShaped(rest) by {
        assert forall k :: 0 <= k < |rest| - 1 ==> rest[k] == acts[k + 1];
      }
      PerformShaped(rest, e);
      var last := Perform([acts[|acts| - 1]], e);
      assert rest[|rest| - 1] == acts[|acts| - 1];
      calc {
        Perform(acts, e);
        Then(HelpText(), Perform(rest, e));
        Then(HelpText(), Then(Helps(|rest| - 1), last));
        { ThenThen(HelpText(), Helps(|rest| - 1), last); }
        Then(HelpText() + Helps(|rest| - 1), last);
      }
    } else {
      assert acts == [acts[0]];
      assert Helps(0) == [];
    }
  }

  /** `process()` changes state only through the one handler it may call:
      with no handler call, nothing changes. */
  lemma ProcessChangesOnlyThroughHandler(s: string, e: Env)
    ensures |Route(s)| > 0
    ensures var last := Route(s)[|Route(s)| - 1];
      && Process(s, e).env == (if last.Invoke? then Handle(last.handler, last.arg, e).env else e)
      && (Process(s, e).ok <==> !last.Fault?)
  {
    ScanShaped(Commands, 0, s);
    PerformShaped(Route(s), e);
    PerformOne(Route(s)[|Route(s)| - 1], e);
  }

  /** `wifi erase` can never erase anything through `process()`: its
      argument arrives trimmed, but the handler insists that it starts with a
      space, so every call prints the help listing and changes nothing. */
  lemma WifiEraseOnlyHelps(s: string, e: Env)
    ensures |Route(s)| > 0
    ensures var last := Route(s)[|Route(s)| - 1];
      last.Invoke? && last.handler == WifiErase ==>
        Handle(last.handler, last.arg, e) == Outcome(e, HelpText()) && Process(s, e).env == e
  {
    RouteShape(s);
    ProcessChangesOnlyThroughHandler(s, e);
  }

  // ---------------------------------------------------------------------------
  // Unknown commands
  // ---------------------------------------------------------------------------

  predicate NoRootFrom(t: seq<Entry>, i: nat, s: string) {
    forall k :: i <= k < |t| && t[k].handler.None? ==> !StartsWith(s, t[k].cmd)
  }

  lemma {:induction false} ScanNoRoot(t: seq<Entry>, i: nat, s: string)
    requires i <= |t| && NoRootFrom(t, i, s)
    ensures Scan(t, i, s) == [Bad]
    decreases |t| - i
  {
    if i < |t| {
      ScanNoRoot(t, i + 1, s);
    }
  }

  lemma {:induction false} LeavesNotBad(t: seq<Entry>, j: nat, s: string)
    requires j <= |t|
    ensures |Leaves(t, j, s)| > 0
    ensures Leaves(t, j, s)[0] != Bad
    decreases |t| - j
  {
    if IsLeaf(t, j) && !StartsWith(s, t[j].cmd) {
      LeavesNotBad(t, j + 1, s);
    }
  }

  lemma {:induction false} ScanRootNotBad(t: seq<Entry>, i: nat, s: string)
    requires i <= |t| && !NoRootFrom(t, i, s)
    ensures Scan(t, i, s) != [Bad]
    decreases |t| - i
  {
    if t[i].handler.Some? || !StartsWith(s, t[i].cmd) {
      assert !NoRootFrom(t, i + 1, s);
      ScanRootNotBad(t, i + 1, s);
    } else {
      var s1 := ReplaceAll(s, t[i].cmd, "");
      if CharAt(s1, 0) == ' ' && CharAt(Trim(s1), 0) != '\0' {
        LeavesNotBad(t, i + 1, Trim(s1));
        assert Enter(t, i, s) == Leaves(t, i + 1, Trim(s1));
      } else {
        assert Enter(t, i, s) == [Help];
      }
    }
  }

  /** A line is answered "unknown command" exactly when no root word of the
      table starts it; the answer changes nothing. */
  lemma UnknownCommand(s: string, e: Env)
    ensures Route(s) == [Bad] <==> NoRootFrom(Commands, 0, s)
    ensures Route(s) == [Bad] ==> Process(s, e) == Reply(e, [BadText], true)
  {
    if NoRootFrom(Commands, 0, s) {
      ScanNoRoot(Commands, 0, s);
      assert [Bad][1..] == [];
    } else {
      ScanRootNotBad(Commands, 0, s);
    }
  }

  // ---------------------------------------------------------------------------
  // wifi add
  // ---------------------------------------------------------------------------

  /** Neither `String(n)` nor the space after it holds an 's' or a 'p'. */
  lemma IndexPrefix(n: nat)
    ensures 's' !in DecimalString(n) + " " && 'p' !in DecimalString(n) + " "
  {
    DecimalDigits(n);
  }

  /** The index of "N" followed by a space: `N`, and it counts as an
      explicit zero exactly when `N` is 0. */
  lemma NumberedIndex(n: nat, rest: string)
    requires |rest| > 0 && rest[0] == ' '
    ensures AddIndex(DecimalString(n) + rest) == n
    ensures Substring(DecimalString(n) + rest, 0, 2) == "0 " <==> n == 0
  {
    var d := DecimalString(n);
    var s := d + rest;
    DecimalDigits(n);
    if n == 0 {
      assert Substring(s, 0, 2) == "0 ";
    } else {
      DecimalLeading(n);
      assert Substring(s, 0, 2)[0] == d[0];
      DecimalToInt(n, rest);
    }
  }

  /** `key` ("ssid=" or "pass=") right after the leading `a`, which holds
      no character of it that could start a match: it is found there, and
      the value is what follows it. */
  lemma KeyAfter(a: string, key: string, v: string)
    requires |key| == 5 && key[0] !in a
    ensures IndexOf(a + key + v, key) == |a|
    ensures (a + key + v)[|a| + 5..] == v
  {
    assert a + key + v == a + (key + v);
    FindAfterPrefix(a, key + v, key, 0);
    assert FindFrom(key + v, key, 0) == 0;
  }

  /** Once `N` is read as the index, what follows decides the reply. */
  lemma IndexedAdd(s: string, n: nat, e: Env)
    requires AddIndex(s) == n && (Substring(s, 0, 2) == "0 " <==> n == 0)
    ensures AddReply(s, e) == if n > 8 then Outcome(e, [AddRangeText]) else StoreReply(s, n, e)
  {
    IndexedChoice(s, Substring(s, 0, 2) == "0 ", AddIndex(s), n, e);
  }

  lemma IndexedChoice(s: string, zero: bool, idx: int, n: nat, e: Env)
    requires idx == n && (zero <==> n == 0)
    ensures IndexedReply(s, zero, idx, e) == if n > 8 then Outcome(e, [AddRangeText]) else StoreReply(s, n, e)
  {
    if n <= 8 {
      assert idx % 256 == n;
    }
  }

  /** "N ssid=V": index 0 or an index from 1 to 8 stores `V` as that slot's
      ssid (the store itself refuses more than 31 characters) and prints
      nothing; a larger index is refused with the range message. */
  lemma AddSsid(n: nat, v: string, e: Env)
    ensures AddReply(DecimalString(n) + " ssid=" + v, e)
      == if n > 8 then Outcome(e, [AddRangeText])
         else Outcome(e.(settings := PutSsid(e.settings, n, v).entries), [])
  {
    var d := DecimalString(n);
    var s := d + " ssid=" + v;
    assert s == d + (" ssid=" + v) == (d + " ") + "ssid=" + v;
    NumberedIndex(n, " ssid=" + v);
    IndexedAdd(s, n, e);
    if n <= 8 {
      IndexPrefix(n);
      KeyAfter(d + " ", "ssid=", v);
    }
  }

  /** "ssid=" does not occur in "N pass=V" when it does not occur in `V`. */
  lemma NoSsidInPass(d: string, v: string)
    requires forall i :: 0 <= i < |d| ==> IsDigit(d[i])
    requires forall j :: !OccursAt(v, "ssid=", j)
    ensures forall j :: !OccursAt(d + " pass=" + v, "ssid=", j)
  {
    var s := d + " pass=" + v;
    var l := |d|;
    forall j: nat
      ensures !OccursAt(s, "ssid=", j)
    {
      if j + 5 <= |s| {
        var w := s[j..j + 5];
        if j < l {
          assert w[0] == d[j];
        } else if j < l + 3 || j == l + 5 {
          assert w[0] == " pass="[j - l];
        } else if j == l + 3 {
          assert w[2] == s[l + 5] == '=';
        } else if j == l + 4 {
          assert w[1] == s[l + 5] == '=';
        } else {
          assert w == v[j - l - 6..j - l - 6 + 5];
          assert !OccursAt(v, "ssid=", j - l - 6);
        }
      }
    }
  }

  /** "N pass=V", with no "ssid=" inside `V`: the same as "N ssid=V" for
      the password of slot N (the store refuses more than 63 characters). */
  lemma AddPass(n: nat, v: string, e: Env)
    requires forall j :: !OccursAt(v, "ssid=", j)
    ensures AddReply(DecimalString(n) + " pass=" + v, e)
      == if n > 8 then Outcome(e, [AddRangeText])
         else Outcome(e.(settings := PutPass(e.settings, n, v).entries), [])
  {
    var d := DecimalString(n);
    var s := d + " pass=" + v;
    assert s == d + (" pass=" + v) == (d + " ") + "pass=" + v;
    NumberedIndex(n, " pass=" + v);
    IndexedAdd(s, n, e);
    if n <= 8 {
      DecimalDigits(n);
      NoSsidInPass(d, v);
      assert IndexOf(s, "ssid=") == -1;
      IndexPrefix(n);
      KeyAfter(d + " ", "pass=", v);
    }
  }

  /** The index of "-N" followed by a space: `-N`, never an explicit zero. */
  lemma NegativeIndex(n: nat, rest: string)
    requires |rest| > 0 && rest[0] == ' '
    ensures AddIndex("-" + DecimalString(n) + rest) == -(n as int)
    ensures Substring("-" + DecimalString(n) + rest, 0, 2) != "0 "
  {
    var s := "-" + DecimalString(n) + rest;
    assert Substring(s, 0, 2)[0] == '-';
    DecimalToInt(n, rest);
  }

  /** A negative index is never refused: it reaches the store as a slot. */
  lemma AddReplyIs(s: string, zero: bool, idx: int, e: Env)
    requires zero == (Substring(s, 0, 2) == "0 ") && idx == AddIndex(s)
    ensures AddReply(s, e) == IndexedReply(s, zero, idx, e)
  {
  }

  lemma NegativeChoice(s: string, zero: bool, idx: int, e: Env)
    requires idx < 0
    ensures IndexedReply(s, zero, idx, e) == StoreReply(s, idx % 256, e)
  {
  }

  /** "-N ssid=V": a negative index passes the range check and, cast to
      `uint8_t`, names slot -N modulo 256. */
  lemma AddNegative(n: nat, slot: uint8, v: string, e: Env)
    requires n > 0 && slot as int == (-(n as int)) % 256
    ensures AddReply("-" + DecimalString(n) + " ssid=" + v, e)
      == Outcome(e.(settings := PutSsid(e.settings, slot, v).entries), [])
  {
    var idx := -(n as int);
    var s := "-" + DecimalString(n) + " ssid=" + v;
    NegativeLine(n, v, s);
    NegativeStore(s, idx, slot, v, e);
  }

  /** The argument "-N ssid=V" reads as index -N and carries V after its
      first "ssid=". */
  lemma NegativeLine(n: nat, v: string, s: string)
    requires n > 0 && s == "-" + DecimalString(n) + " ssid=" + v
    ensures AddIndex(s) == -(n as int) && Substring(s, 0, 2) != "0 "
    ensures IndexOf(s, "ssid=") > 0 && s[IndexOf(s, "ssid=") + 5..] == v
  {
    var d := DecimalString(n);
    assert s == "-" + d + (" ssid=" + v) == ("-" + d + " ") + "ssid=" + v;
    NegativeIndex(n, " ssid=" + v);
    IndexPrefix(n);
    assert 's' !in "-" + d + " ";
    KeyAfter("-" + d + " ", "ssid=", v);
  }

  /** A negative index passes both range checks and is cast to a slot. */
  lemma NegativeStore(s: string, idx: int, slot: uint8, v: string, e: Env)
    requires idx < 0 && AddIndex(s) == idx && Substring(s, 0, 2) != "0 " && slot as int == idx % 256
    requires IndexOf(s, "ssid=") > 0 && s[IndexOf(s, "ssid=") + 5..] == v
    ensures AddReply(s, e) == Outcome(e.(settings := PutSsid(e.settings, slot, v).entries), [])
  {
    calc {
      AddReply(s, e);
      { AddReplyIs(s, false, idx, e); }
      IndexedReply(s, false, idx, e);
      { NegativeChoice(s, false, idx, e); }
      StoreReply(s, slot, e);
      { StoreSsidAt(s, slot, v, e); }
      Outcome(e.(settings := PutSsid(e.settings, slot, v).entries), []);
    }
  }

  /** `wifi_add` past its index checks, on an argument whose first "ssid="
      is not at its start: the value after it goes to the slot. */
  lemma StoreSsidAt(s: string, slot: uint8, v: string, e: Env)
    requires IndexOf(s, "ssid=") > 0 && s[IndexOf(s, "ssid=") + 5..] == v
    ensures StoreReply(s, slot, e) == Outcome(e.(settings := PutSsid(e.settings, slot, v).entries), [])
  {
  }


  lemma Decimal248()
    ensures DecimalString(248) == "248"
  {
  }

  /** "-248 ssid=V" stores slot 8. */
  lemma AddMinus248(v: string, e: Env)
    ensures AddReply("-248 ssid=" + v, e) == Outcome(e.(settings := PutSsid(e.settings, 8, v).entries), [])
  {
    Decimal248();
    assert "-" + DecimalString(248) + " ssid=" + v == "-248 ssid=" + v;
    assert (-248) % 256 == 8;
    AddNegative(248, 8, v, e);
  }

  /** An argument that does not start with a digit or a sign holds no index. */
  lemma Unindexed(s: string)
    requires s == [] || (!IsDigit(s[0]) && !IsSpace(s[0]) && s[0] != '-' && s[0] != '+')
    ensures AddIndex(s) == 0 && Substring(s, 0, 2) != "0 "
  {
    assert TrimLeft(s) == s;
    assert LeadingDigits(s) == [];
    if s != [] {
      assert Substring(s, 0, 2)[0] == s[0];
    }
  }

  /** Such an argument is refused as missing its index. */
  lemma AddWithoutIndex(s: string, e: Env)
    requires s == [] || (!IsDigit(s[0]) && !IsSpace(s[0]) && s[0] != '-' && s[0] != '+')
    ensures AddReply(s, e) == Outcome(e, [MissingIndexText])
  {
    Unindexed(s);
  }

  // ---------------------------------------------------------------------------
  // sys, net
  // ---------------------------------------------------------------------------

  /** `sys boot=AP` and `sys boot=STA` set the boot mode (only that prefix of
      the argument is compared, so "=APx" counts as "=AP"); afterwards
      `sys boot` shows the mode, and nothing but the mode has changed. */
  lemma BootRoundTrip(mode: bool, rest: string, e: Env)
    ensures var e1 := BootReply((if mode == AP then "=AP" else "=STA") + rest, e).env;
      && e1 == e.(settings := PutBoot(e.settings, mode).entries)
      && BootReply("", e1).out == ["boot: " + (if mode == AP then "AP" else "STA") + "\n"]
  {
    var arg := (if mode == AP then "=AP" else "=STA") + rest;
    assert CharAt(arg, 0) == '=';
    if mode == AP {
      assert StartsWith(arg, "=AP");
    } else {
      assert arg[1] == 'S';
      assert StartsWith(arg, "=STA");
    }
    BootWrite(e.settings, mode);
  }

  /** `net hostname=V`: a name of at most 32 characters is stored and handed
      to the interface, and `net hostname` then shows it twice; a longer one
      is refused and changes nothing. */
  lemma HostnameRoundTrip(v: string, e: Env)
    ensures var r := HostnameReply("=" + v, e);
      if |v| > MaxNameLen then r == Outcome(e, [HostnameTooLongText])
      else
        && r == Outcome(e.(settings := PutHostname(e.settings, v).entries, hostname := v), [])
        && HostnameReply("", r.env).out == ["hardware: " + v + "  stored: " + v + "\n"]
  {
    assert Substring("=" + v, 1, |"=" + v|) == v;
    HostnameWrite(e.settings, v);
  }

  /** `net APname=V`: the same for the access-point name, which only the
      store keeps. */
  lemma APnameRoundTrip(v: string, e: Env)
    ensures var r := APnameReply("=" + v, e);
      if |v| > MaxNameLen then r == Outcome(e, [APnameTooLongText])
      else
        && r == Outcome(e.(settings := PutAPname(e.settings, v).entries), [])
        && APnameReply("", r.env).out == [v + "\n"]
  {
    assert Substring("=" + v, 1, |"=" + v|) == v;
    APnameWrite(e.settings, v);
  }

  /** `sys erase_all` forgets everything: every slot, the names and the boot
      mode read their defaults afterwards. */
  lemma EraseAllForgets(e: Env, idx: uint8)
    ensures var e1 := EraseAllReply("", e).env;
      && SsidIn(e1.settings, idx) == "" && PassIn(e1.settings, idx) == ""
      && HostnameIn(e1.settings) == "" && APnameIn(e1.settings) == ""
      && BootReply("", e1).out == ["boot: STA\n"]
      && e1.hostname == e.hostname && e1.restart == e.restart
  {
    ErasedDefaults(e.settings, idx);
    assert "boot: " + "STA" + "\n" == "boot: STA\n";
  }

  // ---------------------------------------------------------------------------
  // wifi list
  // ---------------------------------------------------------------------------

  /** The column widths are those of the longest ssid and password among the
      first `n` slots. */
  lemma {:induction false} WidthsAreLongest(m: Namespace, n: nat)
    requires n <= 256
    ensures forall i: uint8 :: i < n ==> |SsidIn(m, i)| <= SsidWidth(m, n) && |PassIn(m, i)| <= PassWidth(m, n)
    ensures SsidWidth(m, n) == 0 || exists i: uint8 :: i < n && SsidWidth(m, n) == |SsidIn(m, i)|
    ensures PassWidth(m, n) == 0 || exists i: uint8 :: i < n && PassWidth(m, n) == |PassIn(m, i)|
  {
    if n > 0 {
      WidthsAreLongest(m, n - 1);
    }
  }

  lemma {:induction false} DashesAll(n: nat)
    ensures |Dashes(n)| == n && forall k :: 0 <= k < n ==> Dashes(n)[k] == "-"
  {
    if n > 0 {
      DashesAll(n - 1);
    }
  }

  lemma {:induction false} RowsInOrder(m: Namespace, n: nat, ws: nat, wp: nat)
    requires n <= 256
    ensures |ListRows(m, n, ws, wp)| == n
    ensures forall i: uint8 :: i < n ==> ListRows(m, n, ws, wp)[i] == ListRow(m, i, ws, wp)
  {
    if n > 0 {
      RowsInOrder(m, n - 1, ws, wp);
      var rows := ListRows(m, n - 1, ws, wp);
      var all := ListRows(m, n, ws, wp);
      assert all == rows + [ListRow(m, n - 1, ws, wp)];
      forall i: uint8 | i < n
        ensures all[i] == ListRow(m, i, ws, wp)
      {
        if i < n - 1 {
          assert all[i] == rows[i];
        }
      }
    }
  }

  /** `%-Ns` of a string no longer than `w`: exactly `w` characters,
      starting with the string. */
  lemma PadRightFits(x: string, w: nat)
    requires |x| <= w
    ensures |PadRight(x, w)| == w && PadRight(x, w)[..|x|] == x
  {
  }

  /** One row: the index right-aligned in two columns, then the ssid padded
      to `ws`, then the password padded to `wp`. */
  lemma RowLayout(m: Namespace, i: uint8, ws: nat, wp: nat)
    requires i < 10 && |SsidIn(m, i)| <= ws && |PassIn(m, i)| <= wp
    ensures var row := ListRow(m, i, ws, wp);
      && |row| == ws + wp + 9
      && row[..5] == "  " + [DigitChar(i)] + "  "
      && row[5..5 + |SsidIn(m, i)|] == SsidIn(m, i)
      && row[ws + 7..ws + 7 + |PassIn(m, i)|] == PassIn(m, i)
  {
    var ssid := SsidIn(m, i);
    var pass := PassIn(m, i);
    assert DecimalString(i) == [DigitChar(i)];
    var a := " " + PadLeft(DecimalString(i), 2) + "  ";
    assert a == "  " + [DigitChar(i)] + "  ";
    var b := PadRight(ssid, ws);
    var d := PadRight(pass, wp);
    PadRightFits(ssid, ws);
    PadRightFits(pass, wp);
    var row := ListRow(m, i, ws, wp);
    assert row == a + b + "  " + d + " \n";
    assert row[5..5 + |ssid|] == b[..|ssid|];
    assert row[ws + 7..ws + 7 + |pass|] == d[..|pass|];
  }

  /** `wifi list` prints a header, then a rule of dashes as wide as the
      table (its lines 1 to ws + wp + 10), an empty line, and the rows. */
  lemma ListingFrame(m: Namespace, ws: nat, wp: nat, k: nat)
    requires ws == SsidWidth(m, 8) && wp == PassWidth(m, 8)
    requires 1 <= k <= ws + wp + 10
    ensures var l := Listing(m);
      && |l| == ws + wp + 20
      && l[0] == ListHeader(ws, wp)
      && l[k] == "-"
      && l[ws + wp + 11] == "\n"
  {
    FrameAt(m, Listing(m), ws, wp, k);
  }

  lemma FrameAt(m: Namespace, l: seq<string>, ws: nat, wp: nat, k: nat)
    requires l == Listing(m) && ws == SsidWidth(m, 8) && wp == PassWidth(m, 8)
    requires 1 <= k <= ws + wp + 10
    ensures |l| == ws + wp + 20 && l[0] == ListHeader(ws, wp) && l[k] == "-" && l[ws + wp + 11] == "\n"
  {
    ListingParts(m);
    TableFrame(l, m, ws, wp, k);
  }

  /** The row of slot `i` (0 to 7) is line ws + wp + 12 + i of the listing,
      where ws and wp are the widths of the ssid and password columns. */
  lemma ListingRow(m: Namespace, ws: nat, wp: nat, i: uint8)
    requires ws == SsidWidth(m, 8) && wp == PassWidth(m, 8) && i < 8
    ensures var l := Listing(m);
      && |l| == ws + wp + 20
      && l[ws + wp + 12 + i] == ListRow(m, i, ws, wp)
  {
    ListingAt(m, Listing(m), ws, wp, i);
  }

  lemma ListingAt(m: Namespace, l: seq<string>, ws: nat, wp: nat, i: uint8)
    requires l == Listing(m) && ws == SsidWidth(m, 8) && wp == PassWidth(m, 8) && i < 8
    ensures |l| == ws + wp + 20 && l[ws + wp + 12 + i] == ListRow(m, i, ws, wp)
  {
    ListingParts(m);
    TableRow(l, m, ws, wp, i);
  }

  /** The listing as its four parts, at the widths of slots 0 to 7. */
  lemma ListingParts(m: Namespace)
    ensures var ws := SsidWidth(m, 8);
      var wp := PassWidth(m, 8);
      Listing(m) == [ListHeader(ws, wp)] + Dashes(ws + wp + 10) + ["\n"] + ListRows(m, 8, ws, wp)
  {
  }

  lemma TableFrame(l: seq<string>, m: Namespace, ws: nat, wp: nat, k: nat)
    requires l == [ListHeader(ws, wp)] + Dashes(ws + wp + 10) + ["\n"] + ListRows(m, 8, ws, wp)
    requires 1 <= k <= ws + wp + 10
    ensures |l| == ws + wp + 20 && l[0] == ListHeader(ws, wp) && l[k] == "-" && l[ws + wp + 11] == "\n"
  {
    DashesAll(ws + wp + 10);
    RowsInOrder(m, 8, ws, wp);
    RuleAt(ListHeader(ws, wp), Dashes(ws + wp + 10), ListRows(m, 8, ws, wp), ws + wp + 11);
  }

  lemma TableRow(l: seq<string>, m: Namespace, ws: nat, wp: nat, i: uint8)
    requires l == [ListHeader(ws, wp)] + Dashes(ws + wp + 10) + ["\n"] + ListRows(m, 8, ws, wp)
    requires i < 8
    ensures |l| == ws + wp + 20 && l[ws + wp + 12 + i] == ListRow(m, i, ws, wp)
  {
    assert |Dashes(ws + wp + 10)| == ws + wp + 10 by {
      DashesAll(ws + wp + 10);
    }
    RowOfTable(ListHeader(ws, wp), Dashes(ws + wp + 10), ws + wp + 12, m, 8, ws, wp, i);
  }

  /** Row `i` of a table of `n` rows sits `i` lines after the first row. */
  lemma RowOfTable(header: string, rule: seq<string>, at: nat, m: Namespace, n: nat, ws: nat, wp: nat, i: uint8)
    requires at == |rule| + 2 && n <= 256 && i < n
    ensures var l := [header] + rule + ["\n"] + ListRows(m, n, ws, wp);
      && |l| == at + n
      && l[at + i] == ListRow(m, i, ws, wp)
  {
    RowsInOrder(m, n, ws, wp);
    RowsAt(header, rule, ListRows(m, n, ws, wp), at, m, ws, wp);
  }

  /** A header, a rule of dashes and an empty line (at `at`) open the
      table. */
  lemma RuleAt(header: string, rule: seq<string>, rows: seq<string>, at: nat)
    requires at == |rule| + 1
    requires forall k :: 0 <= k < |rule| ==> rule[k] == "-"
    ensures var l := [header] + rule + ["\n"] + rows;
      && |l| == at + 1 + |rows|
      && l[0] == header
      && (forall k :: 1 <= k <= |rule| ==> l[k] == "-")
      && l[at] == "\n"
  {
    var l := [header] + rule + ["\n"] + rows;
    forall k | 1 <= k <= |rule|
      ensures l[k] == "-"
    {
      assert l[k] == rule[k - 1];
    }
  }

  /** The rows follow the rule and the empty line, from `at` on. */
  lemma RowsAt(header: string, rule: seq<string>, rows: seq<string>, at: nat, m: Namespace, ws: nat, wp: nat)
    requires at == |rule| + 2
    requires |rows| <= 256 && forall i: uint8 :: i < |rows| ==> rows[i] == ListRow(m, i, ws, wp)
    ensures var l := [header] + rule + ["\n"] + rows;
      && |l| == at + |rows|
      && forall i: uint8 :: i < |rows| ==> l[at + i] == ListRow(m, i, ws, wp)
  {
    var l := [header] + rule + ["\n"] + rows;
    forall i: uint8 | i < |rows|
      ensures l[at + i] == ListRow(m, i, ws, wp)
    {
      assert l[at + i] == rows[i];
    }
  }

  lemma {:induction false} WidthsAgree(m1: Namespace, m2: Namespace, n: nat)
    requires n <= 256
    requires forall i: uint8 :: i < n ==> SsidIn(m1, i) == SsidIn(m2, i) && PassIn(m1, i) == PassIn(m2, i)
    ensures SsidWidth(m1, n) == SsidWidth(m2, n) && PassWidth(m1, n) == PassWidth(m2, n)
  {
    if n > 0 {
      WidthsAgree(m1, m2, n - 1);
    }
  }

  lemma {:induction false} RowsAgree(m1: Namespace, m2: Namespace, n: nat, ws: nat, wp: nat)
    requires n <= 256
    requires forall i: uint8 :: i < n ==> SsidIn(m1, i) == SsidIn(m2, i) && PassIn(m1, i) == PassIn(m2, i)
    ensures ListRows(m1, n, ws, wp) == ListRows(m2, n, ws, wp)
  {
    if n > 0 {
      RowsAgree(m1, m2, n - 1, ws, wp);
    }
  }

  /** The listing depends on slots 0 to 7 only. */
  lemma ListingSeesFirstEight(m1: Namespace, m2: Namespace)
    requires forall i: uint8 :: i < 8 ==> SsidIn(m1, i) == SsidIn(m2, i) && PassIn(m1, i) == PassIn(m2, i)
    ensures Listing(m1) == Listing(m2)
  {
    WidthsAgree(m1, m2, 8);
    RowsAgree(m1, m2, 8, SsidWidth(m1, 8), PassWidth(m1, 8));
  }

  /** Whatever slot 8 holds, the listing is the same. */
  lemma ListingIgnoresSlotEight(m: Namespace, v: string)
    ensures Listing(PutSsid(m, 8, v).entries) == Listing(m)
    ensures Listing(PutPass(m, 8, v).entries) == Listing(m)
  {
    SsidWrite(m, 8, v);
    PassWrite(m, 8, v);
    ListingSeesFirstEight(PutSsid(m, 8, v).entries, m);
    ListingSeesFirstEight(PutPass(m, 8, v).entries, m);
  }

  /** Slot 8 can be written with `wifi add 8 ...`, but `wifi list` stops at
      `wifimaxn()` rows and never shows it. */
  lemma SlotEightUnlisted(v: string, e: Env)
    ensures var e1 := AddReply("8 ssid=" + v, e).env;
      && (|v| <= MaxSsidLen ==> SsidIn(e1.settings, 8) == v)
      && ListReply("", e1).out == ListReply("", e).out
  {
    assert DecimalString(8) + " ssid=" + v == "8 ssid=" + v;
    AddSsid(8, v, e);
    SsidWrite(e.settings, 8, v);
    ListingIgnoresSlotEight(e.settings, v);
  }

  // ---------------------------------------------------------------------------
  // A line as a user types it: `wifi add N ssid=V`
  // ---------------------------------------------------------------------------

  /** Entry `e` lets the scan go on past it for the line `s`: a sub-command
      row, or a root word whose first character differs from the line's. */
  predicate Passes(e: Entry, s: string) {
    e.handler.Some? || (|e.cmd| > 0 && |s| > 0 && e.cmd[0] != s[0])
  }

  lemma {:induction false} ScanPasses(t: seq<Entry>, i: nat, k: nat, s: string)
    requires i <= k <= |t| && forall j :: i <= j < k ==> Passes(t[j], s)
    ensures Scan(t, i, s) == Scan(t, k, s)
    decreases k - i
  {
    if i < k {
      ScanPasses(t, i + 1, k, s);
    }
  }

  lemma {:induction false} LeavesPass(t: seq<Entry>, i: nat, k: nat, s: string)
    requires i <= k <= |t| && forall j :: i <= j < k ==> IsLeaf(t, j) && !StartsWith(s, t[j].cmd)
    ensures Leaves(t, i, s) == Leaves(t, k, s)
    decreases k - i
  {
    if i < k {
      LeavesPass(t, i + 1, k, s);
    }
  }

  /** The route through any table to one handler: every row before root `i`
      is passed over, the root matches and leaves a non-empty remainder
      `rest` after a space, the sub-commands between `i` and `j` do not match
      `rest`, and sub-command `j` does and leaves `a`. */
  predicate RoutesTo(t: seq<Entry>, i: nat, j: nat, s: string, rest: string, a: string) {
    && i < j < |t|
    && (forall k :: 0 <= k < i ==> Passes(t[k], s))
    && t[i].handler.None? && StartsWith(s, t[i].cmd)
    && CharAt(ReplaceAll(s, t[i].cmd, ""), 0) == ' '
    && Trim(ReplaceAll(s, t[i].cmd, "")) == rest && CharAt(rest, 0) != '\0'
    && (forall k :: i < k < j ==> IsLeaf(t, k) && !StartsWith(rest, t[k].cmd))
    && IsLeaf(t, j) && StartsWith(rest, t[j].cmd) && Trim(ReplaceAll(rest, t[j].cmd, "")) == a
  }

  lemma RouteTo(t: seq<Entry>, i: nat, j: nat, s: string, rest: string, a: string)
    requires RoutesTo(t, i, j, s, rest, a)
    ensures Scan(t, 0, s) == [Invoke(t[j].handler.value, a)]
  {
    ScanPasses(t, 0, i, s);
    assert Enter(t, i, s) == Leaves(t, i + 1, rest);
    LeavesPass(t, i + 1, j, rest);
  }

  lemma WifiRows()
    ensures Commands[6] == Entry("wifi", None, None)
    ensures Commands[7].cmd == "list" && IsLeaf(Commands, 7)
    ensures Commands[8] == Entry("add", Some(WifiAdd), Some("add # <ssid=ssidname | pass=password>"))
  {
  }

  /** The three root words and three `sys` sub-commands before "wifi" let a
      line starting with 'w' through. */
  lemma BeforeWifi(s: string)
    requires CharAt(s, 0) == 'w'
    ensures forall k :: 0 <= k < 6 ==> Passes(Commands[k], s)
  {
  }

  /** The rows before "net" let a line starting with 'n' through. */
  lemma BeforeNet(s: string)
    requires CharAt(s, 0) == 'n'
    ensures forall k :: 0 <= k < 10 ==> Passes(Commands[k], s)
  {
  }

  /** Removing the root word "wifi" from `wifi add A` leaves ` add A`. */
  lemma WifiRoot(a: string)
    requires 'w' !in a
    ensures StartsWith("wifi add " + a, "wifi")
    ensures ReplaceAll("wifi add " + a, "wifi", "") == [' '] + ("add " + a)
  {
    var r := " add " + a;
    assert "wifi add " + a == "wifi" + r;
    assert 'w' !in r;
    StripAbsent("wifi", r, 0);
  }

  lemma AddTrim(a: string)
    requires a != [] && !IsSpace(a[0]) && !IsSpace(a[|a| - 1])
    ensures Trim([' '] + ("add " + a)) == "add " + a
  {
    var x := "add " + a;
    assert x[0] == 'a' && x[|x| - 1] == a[|a| - 1];
    TrimSpaceThen(x);
  }

  /** A pattern whose first character is absent from `pre` occurs in
      `pre + v` only where it occurs in `v`. */
  lemma NoneAfter(pre: string, v: string, p: string)
    requires |p| > 0 && p[0] !in pre
    requires forall j :: !OccursAt(v, p, j)
    ensures forall j :: !OccursAt(pre + v, p, j)
  {
    var s := pre + v;
    forall j: nat
      ensures !OccursAt(s, p, j)
    {
      if j + |p| <= |s| {
        var w := s[j..j + |p|];
        if j < |pre| {
          assert w[0] == pre[j];
        } else {
          assert w == v[j - |pre|..j - |pre| + |p|];
          assert !OccursAt(v, p, j - |pre|);
        }
      }
    }
  }

  /** Under "wifi", `add A` passes "list", matches "add" and leaves `A`. */
  lemma AddSub(a: string)
    requires a != [] && !IsSpace(a[0]) && !IsSpace(a[|a| - 1])
    requires forall j :: !OccursAt(a, "add", j)
    ensures var r := "add " + a;
      && CharAt(r, 0) != '\0' && !StartsWith(r, "list") && StartsWith(r, "add")
      && ReplaceAll(r, "add", "") == [' '] + a
      && Trim([' '] + a) == a
  {
    assert "add " + a == "add" + (" " + a);
    NoneAfter(" ", a, "add");
    StripLead("add", " " + a);
    TrimSpaceThen(a);
  }

  /** `wifi add A` reaches `wifi_add` with the argument `A`, provided `A`
      is already trimmed and holds neither a 'w' nor "add" (either would be
      cut out of the line by the root and sub-command removal). */
  lemma RouteWifiAdd(a: string)
    requires a != [] && !IsSpace(a[0]) && !IsSpace(a[|a| - 1])
    requires 'w' !in a && forall j :: !OccursAt(a, "add", j)
    ensures Route("wifi add " + a) == [Invoke(WifiAdd, a)]
  {
    AddEntered(a);
    WifiAddRoutes("wifi add " + a, "add " + a, a);
    RouteTo(Commands, 6, 8, "wifi add " + a, "add " + a, a);
  }

  /** The table side of `wifi add A`: the rows before "wifi" pass a line
      starting with 'w', and "list" is the only sub-command before "add". */
  lemma WifiAddRoutes(s: string, rest: string, a: string)
    requires CharAt(s, 0) == 'w' && StartsWith(s, "wifi") && CharAt(ReplaceAll(s, "wifi", ""), 0) == ' '
    requires Trim(ReplaceAll(s, "wifi", "")) == rest && CharAt(rest, 0) != '\0'
    requires !StartsWith(rest, "list") && StartsWith(rest, "add") && Trim(ReplaceAll(rest, "add", "")) == a
    ensures RoutesTo(Commands, 6, 8, s, rest, a) && Commands[8].handler == Some(WifiAdd)
  {
    WifiRows();
    BeforeWifi(s);
  }

  /** The string steps of `wifi add A`: "wifi" is removed, the rest
      trimmed, "list" does not match, "add" does and leaves `A`. */
  lemma AddEntered(a: string)
    requires a != [] && !IsSpace(a[0]) && !IsSpace(a[|a| - 1])
    requires 'w' !in a && forall j :: !OccursAt(a, "add", j)
    ensures CharAt("wifi add " + a, 0) == 'w'
    ensures StartsWith("wifi add " + a, "wifi") && CharAt(ReplaceAll("wifi add " + a, "wifi", ""), 0) == ' '
    ensures Trim(ReplaceAll("wifi add " + a, "wifi", "")) == "add " + a && CharAt("add " + a, 0) != '\0'
    ensures !StartsWith("add " + a, "list") && StartsWith("add " + a, "add")
    ensures Trim(ReplaceAll("add " + a, "add", "")) == a
  {
    WifiRoot(a);
    AddTrim(a);
    AddSub(a);
  }

  /** A line routed to one handler call replies as that handler does. */
  lemma ProcessOne(s: string, h: Handler, a: string, e: Env)
    requires Route(s) == [Invoke(h, a)]
    ensures Process(s, e) == Reply(Handle(h, a, e).env, Handle(h, a, e).out, true)
  {
    var o := Handle(h, a, e);
    assert [Invoke(h, a)][1..] == [];
    assert Perform([Invoke(h, a)], e) == Then(o.out, Perform([], o.env));
    assert o.out + [] == o.out;
  }

  /** `wifi add A` replies exactly as `wifi_add` does on `A`. */
  lemma ProcessWifiAdd(a: string, line: string, e: Env)
    requires a != [] && !IsSpace(a[0]) && !IsSpace(a[|a| - 1])
    requires 'w' !in a && forall j :: !OccursAt(a, "add", j)
    requires line == "wifi add " + a
    ensures Process(line, e) == Reply(AddReply(a, e).env, AddReply(a, e).out, true)
  {
    RouteWifiAdd(a);
    ProcessOne(line, WifiAdd, a, e);
  }

  /** `N ssid=V` with a decimal N and a trimmed `V` holding neither 'w' nor
      "add" is an argument `wifi add` passes through unchanged. */
  lemma AddArgument(n: nat, v: string)
    requires v != [] && !IsSpace(v[|v| - 1])
    requires 'w' !in v && forall j :: !OccursAt(v, "add", j)
    ensures var a := DecimalString(n) + " ssid=" + v;
      && a != [] && !IsSpace(a[0]) && !IsSpace(a[|a| - 1])
      && 'w' !in a && forall j :: !OccursAt(a, "add", j)
  {
    var d := DecimalString(n);
    var a := d + " ssid=" + v;
    DecimalDigits(n);
    assert a == (d + " ssid=") + v;
    assert 'a' !in d + " ssid=";
    NoneAfter(d + " ssid=", v, "add");
    assert a[0] == d[0] && a[|a| - 1] == v[|v| - 1];
    assert 'w' !in d + " ssid=";
  }

  /** Typing `wifi add N ssid=V` (N from 0 to 8, `V` trimmed, without 'w'
      or "add") stores `V` as the ssid of slot N, prints nothing, and
      changes nothing else. */
  lemma AddLine(n: nat, v: string, e: Env)
    requires n <= 8
    requires v != [] && !IsSpace(v[|v| - 1])
    requires 'w' !in v && forall j :: !OccursAt(v, "add", j)
    ensures Process("wifi add " + DecimalString(n) + " ssid=" + v, e)
      == Reply(e.(settings := PutSsid(e.settings, n, v).entries), [], true)
  {
    var a := DecimalString(n) + " ssid=" + v;
    AddArgument(n, v);
    ProcessWifiAdd(a, "wifi add " + DecimalString(n) + " ssid=" + v, e);
    AddSsid(n, v, e);
  }

  /** `wifi list` shows the ssid of slot N (below 8) in row N, from column 5. */
  lemma ListShowsSsid(e: Env, n: nat)
    requires n < 8
    ensures var l := ListReply("", e).out;
      var ws := SsidWidth(e.settings, 8);
      var wp := PassWidth(e.settings, 8);
      var v := SsidIn(e.settings, n);
      |l| == ws + wp + 20 && |l[ws + wp + 12 + n]| >= 5 + |v| && l[ws + wp + 12 + n][5..5 + |v|] == v
  {
    var m := e.settings;
    var ws := SsidWidth(m, 8);
    var wp := PassWidth(m, 8);
    var i := n as uint8;
    assert |SsidIn(m, i)| <= ws && |PassIn(m, i)| <= wp by {
      WidthsAreLongest(m, 8);
    }
    assert |Listing(m)| == ws + wp + 20 && Listing(m)[ws + wp + 12 + n] == ListRow(m, i, ws, wp) by {
      ListingRow(m, ws, wp, i);
    }
    RowShowsSsid(ListReply("", e).out, m, ws, wp, i);
  }

  lemma RowShowsSsid(l: seq<string>, m: Namespace, ws: nat, wp: nat, i: uint8)
    requires i < 8 && |l| == ws + wp + 20 && l[ws + wp + 12 + i] == ListRow(m, i, ws, wp)
    requires |SsidIn(m, i)| <= ws && |PassIn(m, i)| <= wp
    ensures |l[ws + wp + 12 + i]| >= 5 + |SsidIn(m, i)|
    ensures l[ws + wp + 12 + i][5..5 + |SsidIn(m, i)|] == SsidIn(m, i)
  {
    RowLayout(m, i, ws, wp);
  }

  /** After `wifi add N ssid=V` with N from 0 to 7 and `V` short enough for
      the store, `wifi list` shows `V` in the ssid column of row N. */
  lemma AddedIsListed(n: nat, v: string, e: Env)
    requires n < 8 && |v| <= MaxSsidLen
    requires v != [] && !IsSpace(v[|v| - 1])
    requires 'w' !in v && forall j :: !OccursAt(v, "add", j)
    ensures var e1 := Process("wifi add " + DecimalString(n) + " ssid=" + v, e).env;
      var l := ListReply("", e1).out;
      var ws := SsidWidth(e1.settings, 8);
      var wp := PassWidth(e1.settings, 8);
      |l| == ws + wp + 20 && |l[ws + wp + 12 + n]| >= 5 + |v| && l[ws + wp + 12 + n][5..5 + |v|] == v
  {
    AddLine(n, v, e);
    var e1 := e.(settings := PutSsid(e.settings, n, v).entries);
    SsidWrite(e.settings, n, v);
    ListShowsSsid(e1, n);
  }

  // ---------------------------------------------------------------------------
  // Lines that fall through the table
  // ---------------------------------------------------------------------------

  /** A root matches and leaves `rest`, but none of its sub-commands (rows
      `i + 1` to `g - 1`) starts `rest`: the help listing is printed, row `g`
      is skipped, and the outer loop resumes at row `g + 1` with `rest`. */
  predicate MissesAfter(t: seq<Entry>, i: nat, g: nat, s: string, rest: string) {
    && i < g <= |t|
    && (forall k :: 0 <= k < i ==> Passes(t[k], s))
    && t[i].handler.None? && StartsWith(s, t[i].cmd)
    && CharAt(ReplaceAll(s, t[i].cmd, ""), 0) == ' '
    && Trim(ReplaceAll(s, t[i].cmd, "")) == rest && CharAt(rest, 0) != '\0'
    && (forall k :: i < k < g ==> IsLeaf(t, k) && !StartsWith(rest, t[k].cmd))
    && !IsLeaf(t, g)
  }

  lemma RouteMissing(t: seq<Entry>, i: nat, g: nat, s: string, rest: string)
    requires MissesAfter(t, i, g, s, rest)
    ensures Scan(t, 0, s) == [Help] + Scan(t, g + 1, rest)
  {
    ScanPasses(t, 0, i, s);
    assert Enter(t, i, s) == Leaves(t, i + 1, rest);
    LeavesPass(t, i + 1, g, rest);
  }

  /** `wifi X` with an unknown sub-command X prints the help listing and
      then "unknown command": the scan resumes after the "net" row, which it
      skips, finds no further root, and reaches the end of the table.
      Nothing changes. */
  lemma WifiUnknown(x: string, e: Env)
    requires x != [] && x[0] != '\0' && !IsSpace(x[0]) && !IsSpace(x[|x| - 1]) && 'w' !in x
    requires !StartsWith(x, "list") && !StartsWith(x, "add") && !StartsWith(x, "erase")
    ensures Route("wifi " + x) == [Help, Bad]
    ensures Process("wifi " + x, e) == Reply(e, HelpText() + [BadText], true)
  {
    WifiFallsThrough(x);
    HelpThenBad(Route("wifi " + x), e);
  }

  lemma WifiFallsThrough(x: string)
    requires x != [] && x[0] != '\0' && !IsSpace(x[0]) && !IsSpace(x[|x| - 1]) && 'w' !in x
    requires !StartsWith(x, "list") && !StartsWith(x, "add") && !StartsWith(x, "erase")
    ensures Route("wifi " + x) == [Help, Bad]
  {
    WifiMisses(x);
    RouteMissing(Commands, 6, 10, "wifi " + x, x);
    ScanPasses(Commands, 11, 14, x);
  }

  lemma WifiMisses(x: string)
    requires x != [] && x[0] != '\0' && !IsSpace(x[0]) && !IsSpace(x[|x| - 1]) && 'w' !in x
    requires !StartsWith(x, "list") && !StartsWith(x, "add") && !StartsWith(x, "erase")
    ensures MissesAfter(Commands, 6, 10, "wifi " + x, x)
    ensures |Commands| == 14 && forall k :: 11 <= k < 14 ==> Passes(Commands[k], x)
  {
    WifiEntered(x);
    BeforeWifi("wifi " + x);
    WifiGroup();
  }

  /** A line made of a root word, a space and a trimmed remainder `x` in
      which the root's first letter does not occur: removing the root and
      trimming leaves exactly `x`. */
  lemma RootEntered(root: string, x: string, line: string)
    requires |root| > 0 && root[0] !in x && root[0] != ' '
    requires x != [] && !IsSpace(x[0]) && !IsSpace(x[|x| - 1])
    requires line == root + (" " + x)
    ensures StartsWith(line, root) && CharAt(ReplaceAll(line, root, ""), 0) == ' '
    ensures Trim(ReplaceAll(line, root, "")) == x
  {
    var r := " " + x;
    assert root[0] !in r;
    StripAbsent(root, r, 0);
    assert r == [' '] + x;
    TrimSpaceThen(x);
  }

  /** "wifi" opens `wifi X` (X trimmed, without 'w') and its removal leaves
      X after a space. */
  lemma WifiEntered(x: string)
    requires x != [] && x[0] != '\0' && !IsSpace(x[0]) && !IsSpace(x[|x| - 1]) && 'w' !in x
    ensures StartsWith("wifi " + x, "wifi") && CharAt(ReplaceAll("wifi " + x, "wifi", ""), 0) == ' '
    ensures Trim(ReplaceAll("wifi " + x, "wifi", "")) == x && CharAt(x, 0) != '\0'
  {
    RootEntered("wifi", x, "wifi " + x);
  }

  /** The rows of the "wifi" group and what follows it. */
  lemma WifiGroup()
    ensures |Commands| == 14 && Commands[6] == Entry("wifi", None, None)
    ensures Commands[7].cmd == "list" && Commands[8].cmd == "add" && Commands[9].cmd == "erase"
    ensures forall k :: 6 < k < 10 ==> IsLeaf(Commands, k)
    ensures !IsLeaf(Commands, 10) && forall k :: 10 < k < 14 ==> IsLeaf(Commands, k)
  {
  }

  lemma HelpThenBad(acts: seq<Action>, e: Env)
    requires acts == [Help, Bad]
    ensures Perform(acts, e) == Reply(e, HelpText() + [BadText], true)
  {
    assert Perform(acts[1..], e) == Reply(e, [BadText], true) by {
      assert acts[1..] == [Bad] && acts[1..][1..] == [];
      assert [BadText] + [] == [BadText];
    }
  }

  /** `net X` with an unknown sub-command X prints the help listing and then
      runs past the `{NULL, NULL}` terminator: the inner loop stops on the
      terminator and the outer loop steps beyond it, which the model reports
      as a failed `process()` (`ok == false`) with nothing changed. */
  lemma NetUnknown(x: string, e: Env)
    requires x != [] && x[0] != '\0' && !IsSpace(x[0]) && !IsSpace(x[|x| - 1]) && 'n' !in x
    requires !StartsWith(x, "mac")
    ensures Route("net " + x) == [Help, Fault]
    ensures Process("net " + x, e) == Reply(e, HelpText(), false)
  {
    NetFallsThrough(x);
    HelpThenFault(Route("net " + x), e);
  }

  lemma NetFallsThrough(x: string)
    requires x != [] && x[0] != '\0' && !IsSpace(x[0]) && !IsSpace(x[|x| - 1]) && 'n' !in x
    requires !StartsWith(x, "mac")
    ensures Route("net " + x) == [Help, Fault]
  {
    NetMisses(x);
    RouteMissing(Commands, 10, 14, "net " + x, x);
  }

  lemma NetMisses(x: string)
    requires x != [] && x[0] != '\0' && !IsSpace(x[0]) && !IsSpace(x[|x| - 1]) && 'n' !in x
    requires !StartsWith(x, "mac")
    ensures MissesAfter(Commands, 10, 14, "net " + x, x)
  {
    NetEntered(x);
    NetSubsMiss(x);
    BeforeNet("net " + x);
    NetGroup();
  }

  /** "net" opens `net X` (X trimmed, without 'n') and its removal leaves X
      after a space. */
  lemma NetEntered(x: string)
    requires x != [] && x[0] != '\0' && !IsSpace(x[0]) && !IsSpace(x[|x| - 1]) && 'n' !in x
    ensures StartsWith("net " + x, "net") && CharAt(ReplaceAll("net " + x, "net", ""), 0) == ' '
    ensures Trim(ReplaceAll("net " + x, "net", "")) == x && CharAt(x, 0) != '\0'
  {
    RootEntered("net", x, "net " + x);
  }

  /** No sub-command of "net" starts X. */
  lemma NetSubsMiss(x: string)
    requires 'n' !in x && !StartsWith(x, "mac")
    ensures forall k :: 10 < k < 14 ==> IsLeaf(Commands, k) && !StartsWith(x, Commands[k].cmd)
  {
    NoPrefixWithout(x, "hostname", 4);
    NoPrefixWithout(x, "APname", 2);
    NetGroup();
  }

  /** The rows of the "net" group, the last of the table. */
  lemma NetGroup()
    ensures |Commands| == 14 && Commands[10] == Entry("net", None, None)
    ensures Commands[11].cmd == "hostname" && Commands[12].cmd == "APname" && Commands[13].cmd == "mac"
    ensures Commands[11].handler == Some(NetHostname)
    ensures forall k :: 10 < k < 14 ==> IsLeaf(Commands, k)
  {
  }

  lemma HelpThenFault(acts: seq<Action>, e: Env)
    requires acts == [Help, Fault]
    ensures Perform(acts, e) == Reply(e, HelpText(), false)
  {
    assert acts[1..] == [Fault];
  }

  /** Removing "net" from `net hostname=Vhostname` (V without 'n') leaves
      the rest of the line: the only "net" is the leading one. */
  lemma NetRootKeepsHostname(v: string)
    requires 'n' !in v
    ensures var s := "net hostname=" + v + "hostname";
      StartsWith(s, "net") && ReplaceAll(s, "net", "") == " hostname=" + v + "hostname"
  {
    var s := "net hostname=" + v + "hostname";
    var r := " hostname=" + v + "hostname";
    var t := "n" + ("ame=" + v + "host") + "name";
    assert s == "net" + r;
    assert r == " host" + t;
    NoNetInName(v, t);
    ReplaceSkips(" host", t, "net", "");
    LeadingNet(s, r);
  }

  lemma NoNetInName(v: string, t: string)
    requires 'n' !in v && t == "n" + ("ame=" + v + "host") + "name"
    ensures ReplaceAll(t, "net", "") == t
  {
    var u := "ame=" + v + "host";
    assert 'n' !in u && u[0] == 'a';
    NoNetAfterN(u, t);
  }

  /** A line `net` + `r` starts with "net", and removing "net" from it is
      removing "net" from `r`. */
  lemma LeadingNet(s: string, r: string)
    requires s == "net" + r
    ensures StartsWith(s, "net") && ReplaceAll(s, "net", "") == ReplaceAll(r, "net", "")
  {
    assert s[..3] == "net";
    ReplaceLead("net", r, "");
  }

  /** `n` + U + `name`, with U opening with 'a' and holding no 'n', holds no
      "net". */
  lemma NoNetAfterN(u: string, t: string)
    requires 'n' !in u && |u| > 0 && u[0] == 'a' && t == "n" + u + "name"
    ensures ReplaceAll(t, "net", "") == t
  {
    assert !StartsWith(t, "net") by {
      assert t[1] == 'a';
    }
    assert t[1..] == u + "name";
    ReplaceSkips(u, "name", "net", "");
    ReplaceAbsent("name", "net", "", 2);
  }

  /** Removing "hostname" from `hostname=Vhostname` (V without 'h') removes
      both occurrences. */
  lemma HostnameRemovedTwice(v: string)
    requires 'h' !in v
    ensures ReplaceAll("hostname=" + v + "hostname", "hostname", "") == "=" + v
  {
    assert "hostname=" + v + "hostname" == "hostname" + (("=" + v) + "hostname");
    ReplaceLead("hostname", ("=" + v) + "hostname", "");
    ReplaceSkips("=" + v, "hostname", "hostname", "");
    ReplaceLead("hostname", "", "");
    assert "hostname" + "" == "hostname";
    assert ("=" + v) + "" == "=" + v;
  }

  /** `replace` removes every occurrence of the sub-command word, not just
      the leading one: `net hostname=myhostname` stores the hostname "my".
      In general `net hostname=Vhostname` (V without 'n' or 'h', not ending
      in white space, at most 32 characters) stores V, not `Vhostname`. */
  lemma HostnameCutShort(v: string, e: Env)
    requires 'n' !in v && 'h' !in v && (v == [] || !IsSpace(v[|v| - 1])) && |v| <= MaxNameLen
    ensures Route("net hostname=" + v + "hostname") == [Invoke(NetHostname, "=" + v)]
    ensures Process("net hostname=" + v + "hostname", e)
      == Reply(e.(settings := PutHostname(e.settings, v).entries, hostname := v), [], true)
  {
    HostnameRoute(v);
    ProcessOne("net hostname=" + v + "hostname", NetHostname, "=" + v, e);
    HostnameRoundTrip(v, e);
  }

  lemma HostnameRoute(v: string)
    requires 'n' !in v && 'h' !in v && (v == [] || !IsSpace(v[|v| - 1]))
    ensures Route("net hostname=" + v + "hostname") == [Invoke(NetHostname, "=" + v)]
  {
    HostnameRoutes(v);
    RouteTo(Commands, 10, 11, "net hostname=" + v + "hostname", "hostname=" + v + "hostname", "=" + v);
  }

  lemma HostnameRoutes(v: string)
    requires 'n' !in v && 'h' !in v && (v == [] || !IsSpace(v[|v| - 1]))
    ensures RoutesTo(Commands, 10, 11, "net hostname=" + v + "hostname", "hostname=" + v + "hostname", "=" + v)
    ensures Commands[11].handler == Some(NetHostname)
  {
    var s := "net hostname=" + v + "hostname";
    var x := "hostname=" + v + "hostname";
    HostnameEntered(v, s, x);
    BeforeNet(s);
    NetGroup();
  }

  /** The string steps of `net hostname=Vhostname`: "net" is removed, the
      rest trimmed, "hostname" removed twice. */
  lemma HostnameEntered(v: string, s: string, x: string)
    requires 'n' !in v && 'h' !in v && (v == [] || !IsSpace(v[|v| - 1]))
    requires s == "net hostname=" + v + "hostname" && x == "hostname=" + v + "hostname"
    ensures StartsWith(s, "net") && CharAt(ReplaceAll(s, "net", ""), 0) == ' '
    ensures Trim(ReplaceAll(s, "net", "")) == x && CharAt(x, 0) != '\0'
    ensures StartsWith(x, "hostname") && Trim(ReplaceAll(x, "hostname", "")) == "=" + v
  {
    NetRootKeepsHostname(v);
    SpaceThenHostname(v, x);
    HostnameLeaf(v, x);
  }

  lemma SpaceThenHostname(v: string, x: string)
    requires x == "hostname=" + v + "hostname"
    ensures Trim(" hostname=" + v + "hostname") == x && CharAt(x, 0) == 'h'
  {
    assert " hostname=" + v + "hostname" == [' '] + x;
    assert x[0] == 'h' && x[|x| - 1] == 'e';
    TrimSpaceThen(x);
  }

  lemma HostnameLeaf(v: string, x: string)
    requires 'h' !in v && (v == [] || !IsSpace(v[|v| - 1]))
    requires x == "hostname=" + v + "hostname"
    ensures StartsWith(x, "hostname") && Trim(ReplaceAll(x, "hostname", "")) == "=" + v
  {
    assert x[..8] == "hostname";
    HostnameRemovedTwice(v);
    TrimPlain("=" + v);
  }
}
