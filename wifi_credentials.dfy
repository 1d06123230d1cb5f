/** The rolling credential store (`WifiCredentials`): each credential is one
    record `ssid + '\t' + pass` written at a persisted write cursor, which
    advances after every successful write and wraps from `m_maxn` back to 0,
    so the store behaves as a ring of nine slots that overwrites the oldest
    record. */
module Credentials {
  import opened ArduinoString
  import opened Prefs

  /** `m_maxn`: the largest slot index. */
  const MaxN: uint8 := 8
  const MaxSsidLen: nat := 31
  const MaxPassLen: nat := 63

  const IndexKey: string := "index"

  function WifiKey(idx: uint8): string {
    "wifi" + DecimalString(idx)
  }

  /** The stored form of one credential. */
  function Record(ssid: string, pass: string): string {
    ssid + "\t" + pass
  }

  /** The namespace and the write cursor `m_index`. */
  datatype Cursor = Cursor(entries: Namespace, index: uint8)

  /** The constructor: the cursor is restored from "index", 0 when absent,
      and kept in a `uint8_t`. */
  function Load(persisted: Namespace): Cursor {
    Cursor(persisted, GetUInt(persisted, IndexKey, 0) % 256)
  }

  /** `next_index()`: step the cursor, wrap it past `m_maxn`, persist it. */
  function Advance(c: Cursor): Cursor {
    var i: uint8 := if c.index + 1 > MaxN as int then 0 else c.index + 1;
    Cursor(c.entries[IndexKey := Num(i)], i)
  }

  /** `get_wifi(idx)`. */
  function WifiIn(m: Namespace, idx: uint8): string {
    if idx > MaxN then "" else GetString(m, WifiKey(idx), "")
  }

  /** The state after `put_wifi` and its return value. */
  datatype Put = Put(after: Cursor, written: nat)

  /** `put_wifi(ssid, pass)`.  `accepted` is whether the flash layer took the
      write; `putString` then reports the length of the record. */
  function PutWifi(c: Cursor, ssid: string, pass: string, accepted: bool): Put {
    if |ssid| > MaxSsidLen || |pass| > MaxPassLen then Put(c, 0)
    else if !accepted then Put(c, 0)
    else
      var rec := Record(ssid, pass);
      Put(Advance(Cursor(c.entries[WifiKey(c.index) := Str(rec)], c.index)), |rec|)
  }

  class WifiCredentials {
    /** The contents of the "credentials" namespace. */
    var entries: Namespace
    /** `m_index`: the slot the next record goes to. */
    var index: uint8

    function State(): Cursor
      reads this
    {
      Cursor(entries, index)
    }

    /** The cursor agrees with what a restart would load. */
    predicate Persisted()
      reads this
    {
      index == Load(entries).index
    }

    constructor (persisted: Namespace)
      ensures State() == Load(persisted) && Persisted()
    {
      entries := persisted;
      index := GetUInt(persisted, IndexKey, 0) % 256;
    }

    /** `index()`: the slot the next record goes to.  Every operation keeps
        it equal to the persisted "index" (0 when absent), so it survives a
        restart. */
    function Index(): (i: uint8)
      reads this
      ensures Persisted() ==> i == GetUInt(entries, IndexKey, 0) % 256
    {
      index
    }

    method NextIndex()
      modifies this
      ensures State() == Advance(old(State())) && Persisted()
    {
      var next := index + 1;
      index := if next > MaxN as int then 0 else next;
      entries := entries[IndexKey := Num(index)];
    }

    /** `get_wifi(idx)`: the record in a valid slot, "" for an index above 8
        or a slot never written. */
    function GetWifi(idx: uint8): (r: string)
      reads this
      ensures idx > MaxN ==> r == ""
      ensures idx <= MaxN && WifiKey(idx) in entries && entries[WifiKey(idx)].Str? ==> r == entries[WifiKey(idx)].s
      ensures WifiKey(idx) !in entries ==> r == ""
    {
      WifiIn(entries, idx)
    }

    method PutWifiAt(ssid: string, pass: string, accepted: bool) returns (written: nat)
      modifies this
      ensures Put(State(), written) == PutWifi(old(State()), ssid, pass, accepted)
      ensures old(Persisted()) ==> Persisted()
    {
      if |ssid| > MaxSsidLen || |pass| > MaxPassLen {
        return 0;
      }
      written := 0;
      if accepted {
        var rec := ssid + "\t" + pass;
        entries := entries[WifiKey(index) := Str(rec)];
        written := |rec|;
      }
      if written > 0 {
        NextIndex();
      }
    }

    /** `clear()`: the cursor goes back to 0 and the namespace is emptied. */
    method Clear() returns (ok: bool)
      modifies this
      ensures State() == Cursor(map[], 0) && ok && Persisted()
    {
      index := 0;
      entries := map[];
      ok := true;
    }
  }

  // ---------------------------------------------------------------------------
  // Properties
  // ---------------------------------------------------------------------------

  lemma WifiKeysDistinct(i: uint8, j: uint8)
    ensures i != j ==> WifiKey(i) != WifiKey(j)
    ensures WifiKey(i) != IndexKey
  {
    if WifiKey(i) == WifiKey(j) {
      assert WifiKey(i)[4..] == DecimalString(i);
      assert WifiKey(j)[4..] == DecimalString(j);
      DecimalInjective(i, j);
    }
    assert WifiKey(i)[0] == 'w';
  }

  /** After `next_index` the cursor is always in 0..m_maxn: it steps by one
      and wraps to 0 from 8 (or from any larger value restored from flash);
      the new value is persisted, so reopening the store restores it. */
  lemma AdvanceWraps(c: Cursor)
    ensures Advance(c).index <= MaxN
    ensures c.index < MaxN ==> Advance(c).index == c.index + 1
    ensures c.index >= MaxN ==> Advance(c).index == 0
    ensures Load(Advance(c).entries) == Advance(c)
  {
  }

  /** `put_wifi` with an over-long ssid or password, or whose write the flash
      refuses, returns 0, writes nothing and leaves the cursor where it was. */
  lemma PutWifiRejects(c: Cursor, ssid: string, pass: string, accepted: bool)
    requires |ssid| > MaxSsidLen || |pass| > MaxPassLen || !accepted
    ensures PutWifi(c, ssid, pass, accepted) == Put(c, 0)
  {
  }

  /** A successful `put_wifi` stores exactly `ssid + "\t" + pass` in the slot
      under the cursor, advances the cursor and leaves every other slot alone. */
  lemma PutWifiStores(c: Cursor, ssid: string, pass: string)
    requires |ssid| <= MaxSsidLen && |pass| <= MaxPassLen && c.index <= MaxN
    ensures var p := PutWifi(c, ssid, pass, true);
      && p.written == |ssid| + 1 + |pass|
      && WifiIn(p.after.entries, c.index) == Record(ssid, pass)
      && p.after.index == Advance(c).index
      && forall j: uint8 :: j != c.index ==> WifiIn(p.after.entries, j) == WifiIn(c.entries, j)
  {
    WifiKeysDistinct(c.index, c.index);
    forall j: uint8 ensures j != c.index ==> WifiKey(j) != WifiKey(c.index) {
      WifiKeysDistinct(j, c.index);
    }
  }

  /** `clear()` empties every slot and sends the next record to slot 0. */
  lemma ClearedStore(idx: uint8, ssid: string, pass: string)
    requires |ssid| <= MaxSsidLen && |pass| <= MaxPassLen
    ensures WifiIn(Cursor(map[], 0).entries, idx) == ""
    ensures WifiIn(PutWifi(Cursor(map[], 0), ssid, pass, true).after.entries, 0) == Record(ssid, pass)
  {
    WifiKeysDistinct(0, 0);
  }

  /** A credential that fits the limits. */
  predicate Fits(cred: (string, string)) {
    |cred.0| <= MaxSsidLen && |cred.1| <= MaxPassLen
  }

  /** The state after successful `put_wifi` calls for `creds`, in order. */
  function PutAll(c: Cursor, creds: seq<(string, string)>): Cursor
    decreases |creds|
  {
    if creds == [] then c
    else
      var last := creds[|creds| - 1];
      PutWifi(PutAll(c, creds[..|creds| - 1]), last.0, last.1, true).after
  }

  /** The slot that the k-th of a run of writes starting at cursor `start` goes to. */
  function Slot(start: uint8, k: nat): uint8 {
    ((start + k) % 9) as uint8
  }

  lemma SlotsDiffer(start: uint8, k: nat, n: nat)
    requires k < n < k + 9
    ensures Slot(start, k) != Slot(start, n)
  {
  }

  /** After successful writes of `creds` from a cursor in range, the cursor
      has moved `|creds|` places modulo 9. */
  lemma {:induction false} RingCursor(c: Cursor, creds: seq<(string, string)>)
    requires c.index <= MaxN
    requires forall k :: 0 <= k < |creds| ==> Fits(creds[k])
    ensures PutAll(c, creds).index == Slot(c.index, |creds|)
    decreases |creds|
  {
    if creds != [] {
      var n := |creds|;
      var last := creds[n - 1];
      RingCursor(c, creds[..n - 1]);
      var mid := PutAll(c, creds[..n - 1]);
      assert PutWifi(mid, last.0, last.1, true).after.index == Advance(mid).index;
    }
  }

  /** The ring: after successful writes of `creds` from a cursor in range,
      each of the last nine records (the k-th write sits in `Slot(start, k)`)
      is still there; any record older than that has been overwritten. */
  lemma {:induction false} RingKeepsLastNine(c: Cursor, creds: seq<(string, string)>)
    requires c.index <= MaxN
    requires forall k :: 0 <= k < |creds| ==> Fits(creds[k])
    ensures forall k :: 0 <= k < |creds| && |creds| - k <= 9 ==>
              WifiIn(PutAll(c, creds).entries, Slot(c.index, k)) == Record(creds[k].0, creds[k].1)
    decreases |creds|
  {
    if creds != [] {
      var n := |creds|;
      var init := creds[..n - 1];
      var last := creds[n - 1];
      RingKeepsLastNine(c, init);
      RingCursor(c, init);
      var mid := PutAll(c, init);
      PutWifiStores(mid, last.0, last.1);
      var fin := PutAll(c, creds);
      assert fin == PutWifi(mid, last.0, last.1, true).after;
      forall k | 0 <= k < n && n - k <= 9
        ensures WifiIn(fin.entries, Slot(c.index, k)) == Record(creds[k].0, creds[k].1)
      {
        if k < n - 1 {
          assert init[k] == creds[k];
          SlotsDiffer(c.index, k, n - 1);
        }
      }
    }
  }
}
