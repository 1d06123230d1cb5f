/** The settings store (`NvsSettings`): the "settings" Preferences namespace
    seen as nine indexed ssid/pass slots, a hostname, an access-point name and
    a boot mode.  The class holds the namespace as a map; each setter is
    specified by a pure function on that map, and the lemmas below state what
    the getters observe after each kind of write. */
module Nvs {
  import opened ArduinoString
  import opened Prefs

  /** `m_wifimaxn`: the largest valid slot index.  Every guard is
      `idx > m_wifimaxn`, so indices 0 to 8 are accepted: nine slots. */
  const MaxWifiIndex: uint8 := 8
  const MaxSsidLen: nat := 31
  const MaxPassLen: nat := 63

  /** `boot_t`: STA is false, AP is true. */
  const STA: bool := false
  const AP: bool := true

  const HostnameKey: string := "hostname"
  const APnameKey: string := "APname"
  const BootKey: string := "boot"

  function SsidKey(idx: uint8): string {
    "ssid" + DecimalString(idx)
  }

  function PassKey(idx: uint8): string {
    "pass" + DecimalString(idx)
  }

  // ---------------------------------------------------------------------------
  // What the getters read from a namespace
  // ---------------------------------------------------------------------------

  function SsidIn(m: Namespace, idx: uint8): string {
    if idx > MaxWifiIndex then "" else GetString(m, SsidKey(idx), "")
  }

  function PassIn(m: Namespace, idx: uint8): string {
    if idx > MaxWifiIndex then "" else GetString(m, PassKey(idx), "")
  }

  function HostnameIn(m: Namespace): string {
    GetString(m, HostnameKey, "")
  }

  function APnameIn(m: Namespace): string {
    GetString(m, APnameKey, "")
  }

  function BootIn(m: Namespace): bool {
    GetBool(m, BootKey, STA)
  }

  // ---------------------------------------------------------------------------
  // What the setters do to a namespace
  // ---------------------------------------------------------------------------

  /** The namespace after a setter, and the setter's return value (bytes
      written; `putString` reports the length of the string it stored). */
  datatype Write = Write(entries: Namespace, written: nat)

  function PutSsid(m: Namespace, idx: uint8, v: string): Write {
    if |v| > MaxSsidLen || idx > MaxWifiIndex then Write(m, 0)
    else Write(m[SsidKey(idx) := Str(v)], |v|)
  }

  function PutPass(m: Namespace, idx: uint8, v: string): Write {
    if |v| > MaxPassLen || idx > MaxWifiIndex then Write(m, 0)
    else Write(m[PassKey(idx) := Str(v)], |v|)
  }

  function PutHostname(m: Namespace, v: string): Write {
    Write(m[HostnameKey := Str(v)], |v|)
  }

  function PutAPname(m: Namespace, v: string): Write {
    Write(m[APnameKey := Str(v)], |v|)
  }

  /** `putBool` reports one byte written. */
  function PutBoot(m: Namespace, mode: bool): Write {
    Write(m[BootKey := Flag(mode)], 1)
  }

  // ---------------------------------------------------------------------------
  // The store
  // ---------------------------------------------------------------------------

  class NvsSettings {
    /** The contents of the "settings" namespace. */
    var entries: Namespace

    /** Opening the namespace: whatever flash already holds. */
    constructor (persisted: Namespace)
      ensures entries == persisted
    {
      entries := persisted;
    }

    function WifiMaxN(): (n: uint8)
      ensures n == 8
    {
      MaxWifiIndex
    }

    /** `ssid(idx)`: the stored ssid of a valid slot, "" for an index above
        8 or a slot never written. */
    function Ssid(idx: uint8): (v: string)
      reads this
      ensures idx > MaxWifiIndex ==> v == ""
      ensures idx <= MaxWifiIndex && SsidKey(idx) in entries && entries[SsidKey(idx)].Str? ==> v == entries[SsidKey(idx)].s
      ensures SsidKey(idx) !in entries ==> v == ""
    {
      SsidIn(entries, idx)
    }

    method SetSsid(idx: uint8, v: string) returns (written: nat)
      modifies this
      ensures Write(entries, written) == PutSsid(old(entries), idx, v)
    {
      if |v| > MaxSsidLen || idx > MaxWifiIndex {
        return 0;
      }
      entries := entries[SsidKey(idx) := Str(v)];
      written := |v|;
    }

    /** `pass(idx)`: as `ssid(idx)`, for the password. */
    function Pass(idx: uint8): (v: string)
      reads this
      ensures idx > MaxWifiIndex ==> v == ""
      ensures idx <= MaxWifiIndex && PassKey(idx) in entries && entries[PassKey(idx)].Str? ==> v == entries[PassKey(idx)].s
      ensures PassKey(idx) !in entries ==> v == ""
    {
      PassIn(entries, idx)
    }

    method SetPass(idx: uint8, v: string) returns (written: nat)
      modifies this
      ensures Write(entries, written) == PutPass(old(entries), idx, v)
    {
      if |v| > MaxPassLen || idx > MaxWifiIndex {
        return 0;
      }
      entries := entries[PassKey(idx) := Str(v)];
      written := |v|;
    }

    /** `hostname()`: the stored hostname, "" when none is stored. */
    function Hostname(): (v: string)
      reads this
      ensures HostnameKey in entries && entries[HostnameKey].Str? ==> v == entries[HostnameKey].s
      ensures HostnameKey !in entries ==> v == ""
    {
      HostnameIn(entries)
    }

    method SetHostname(v: string) returns (written: nat)
      modifies this
      ensures Write(entries, written) == PutHostname(old(entries), v)
    {
      entries := entries[HostnameKey := Str(v)];
      written := |v|;
    }

    /** `APname()`: the stored access-point name, "" when none is stored. */
    function APname(): (v: string)
      reads this
      ensures APnameKey in entries && entries[APnameKey].Str? ==> v == entries[APnameKey].s
      ensures APnameKey !in entries ==> v == ""
    {
      APnameIn(entries)
    }

    method SetAPname(v: string) returns (written: nat)
      modifies this
      ensures Write(entries, written) == PutAPname(old(entries), v)
    {
      entries := entries[APnameKey := Str(v)];
      written := |v|;
    }

    /** `boot()`: AP exactly when the flag stored is AP; STA when none is
        stored. */
    function Boot(): (mode: bool)
      reads this
      ensures mode == AP <==> BootKey in entries && entries[BootKey] == Flag(AP)
    {
      BootIn(entries)
    }

    method SetBoot(mode: bool) returns (written: nat)
      modifies this
      ensures Write(entries, written) == PutBoot(old(entries), mode)
    {
      entries := entries[BootKey := Flag(mode)];
      written := 1;
    }

    /** `clear()`: the whole namespace is emptied. */
    method Clear() returns (ok: bool)
      modifies this
      ensures entries == map[] && ok
    {
      entries := map[];
      ok := true;
    }

    /** `erase_all()`: the same operation as `clear()`. */
    method EraseAll() returns (ok: bool)
      modifies this
      ensures entries == map[] && ok
    {
      ok := Clear();
    }
  }

  // ---------------------------------------------------------------------------
  // Properties
  // ---------------------------------------------------------------------------

  /** Every slot key names its own entry: no two slots, no ssid and pass, and
      no slot and hostname, APname or boot share a key. */
  lemma KeysDistinct(i: uint8, j: uint8)
    ensures i != j ==> SsidKey(i) != SsidKey(j) && PassKey(i) != PassKey(j)
    ensures SsidKey(i) != PassKey(j)
    ensures SsidKey(i) !in {HostnameKey, APnameKey, BootKey}
    ensures PassKey(i) !in {HostnameKey, APnameKey, BootKey}
  {
    if SsidKey(i) == SsidKey(j) {
      assert SsidKey(i)[4..] == DecimalString(i);
      assert SsidKey(j)[4..] == DecimalString(j);
      DecimalInjective(i, j);
    }
    if PassKey(i) == PassKey(j) {
      assert PassKey(i)[4..] == DecimalString(i);
      assert PassKey(j)[4..] == DecimalString(j);
      DecimalInjective(i, j);
    }
    assert SsidKey(i)[0] == 's' && PassKey(j)[0] == 'p';
    assert SsidKey(i)[1] == 's' && PassKey(i)[1] == 'a';
    DecimalDigits(i);
    assert |SsidKey(i)| >= 5 && |PassKey(i)| >= 5;
    assert SsidKey(i)[4] != 'e';
  }

  /** `ssid(idx, v)`: rejected (nothing written, 0 returned) when the value is
      longer than 31 or the index above 8; otherwise `ssid(idx)` reads back
      `v`, and no other slot, no password, hostname, APname or boot changes. */
  lemma SsidWrite(m: Namespace, idx: uint8, v: string)
    ensures var w := PutSsid(m, idx, v);
      && (|v| > MaxSsidLen || idx > MaxWifiIndex ==> w == Write(m, 0))
      && (|v| <= MaxSsidLen && idx <= MaxWifiIndex ==> SsidIn(w.entries, idx) == v && w.written == |v|)
      && (forall j: uint8 :: j != idx ==> SsidIn(w.entries, j) == SsidIn(m, j))
      && (forall j: uint8 :: PassIn(w.entries, j) == PassIn(m, j))
      && HostnameIn(w.entries) == HostnameIn(m)
      && APnameIn(w.entries) == APnameIn(m)
      && BootIn(w.entries) == BootIn(m)
  {
    forall j: uint8 ensures j != idx ==> SsidKey(j) != SsidKey(idx) {
      KeysDistinct(j, idx);
    }
    forall j: uint8 ensures PassKey(j) != SsidKey(idx) {
      KeysDistinct(idx, j);
    }
    KeysDistinct(idx, idx);
  }

  /** `pass(idx, v)`: the same as `ssid` with the limit 63, touching only the
      password of slot `idx`. */
  lemma PassWrite(m: Namespace, idx: uint8, v: string)
    ensures var w := PutPass(m, idx, v);
      && (|v| > MaxPassLen || idx > MaxWifiIndex ==> w == Write(m, 0))
      && (|v| <= MaxPassLen && idx <= MaxWifiIndex ==> PassIn(w.entries, idx) == v && w.written == |v|)
      && (forall j: uint8 :: j != idx ==> PassIn(w.entries, j) == PassIn(m, j))
      && (forall j: uint8 :: SsidIn(w.entries, j) == SsidIn(m, j))
      && HostnameIn(w.entries) == HostnameIn(m)
      && APnameIn(w.entries) == APnameIn(m)
      && BootIn(w.entries) == BootIn(m)
  {
    forall j: uint8 ensures j != idx ==> PassKey(j) != PassKey(idx) {
      KeysDistinct(j, idx);
    }
    forall j: uint8 ensures SsidKey(j) != PassKey(idx) {
      KeysDistinct(j, idx);
    }
    KeysDistinct(idx, idx);
  }

  /** `hostname(v)` stores a value of any length, reads back as `v`, and
      leaves every slot, APname and boot as they were. */
  lemma HostnameWrite(m: Namespace, v: string)
    ensures var w := PutHostname(m, v);
      && HostnameIn(w.entries) == v && w.written == |v|
      && (forall j: uint8 :: SsidIn(w.entries, j) == SsidIn(m, j) && PassIn(w.entries, j) == PassIn(m, j))
      && APnameIn(w.entries) == APnameIn(m)
      && BootIn(w.entries) == BootIn(m)
  {
    forall j: uint8 ensures SsidKey(j) != HostnameKey && PassKey(j) != HostnameKey {
      KeysDistinct(j, j);
    }
  }

  /** `APname(v)` stores a value of any length, reads back as `v`, and leaves
      every slot, the hostname and boot as they were. */
  lemma APnameWrite(m: Namespace, v: string)
    ensures var w := PutAPname(m, v);
      && APnameIn(w.entries) == v && w.written == |v|
      && (forall j: uint8 :: SsidIn(w.entries, j) == SsidIn(m, j) && PassIn(w.entries, j) == PassIn(m, j))
      && HostnameIn(w.entries) == HostnameIn(m)
      && BootIn(w.entries) == BootIn(m)
  {
    forall j: uint8 ensures SsidKey(j) != APnameKey && PassKey(j) != APnameKey {
      KeysDistinct(j, j);
    }
  }

  /** `boot()` is STA until set; after `boot(mode)` it reads `mode`, and no
      string setting changes. */
  lemma BootWrite(m: Namespace, mode: bool)
    ensures BootIn(map[]) == STA
    ensures var w := PutBoot(m, mode);
      && BootIn(w.entries) == mode
      && (forall j: uint8 :: SsidIn(w.entries, j) == SsidIn(m, j) && PassIn(w.entries, j) == PassIn(m, j))
      && HostnameIn(w.entries) == HostnameIn(m)
      && APnameIn(w.entries) == APnameIn(m)
  {
    forall j: uint8 ensures SsidKey(j) != BootKey && PassKey(j) != BootKey {
      KeysDistinct(j, j);
    }
  }

  /** After `erase_all()` or `clear()` every getter gives its default, and a
      slot above 8 reads empty whatever the namespace holds. */
  lemma ErasedDefaults(m: Namespace, idx: uint8)
    ensures SsidIn(map[], idx) == "" && PassIn(map[], idx) == ""
    ensures HostnameIn(map[]) == "" && APnameIn(map[]) == "" && BootIn(map[]) == STA
    ensures idx > MaxWifiIndex ==> SsidIn(m, idx) == "" && PassIn(m, idx) == ""
  {
  }
}
