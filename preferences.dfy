/** The key-value interface of the ESP32 `Preferences` library, as the two
    stores use it: one flat namespace whose keys map to a string, a boolean
    or an unsigned integer.  A read of a missing key, or of a key that holds
    a value of another type, gives the caller's default. */
module Prefs {

  datatype Value = Str(s: string) | Flag(b: bool) | Num(n: nat)

  type Namespace = map<string, Value>

  /** `getString(key, alt)`. */
  function GetString(m: Namespace, key: string, alt: string): string {
    if key in m && m[key].Str? then m[key].s else alt
  }

  /** `getBool(key, alt)`. */
  function GetBool(m: Namespace, key: string, alt: bool): bool {
    if key in m && m[key].Flag? then m[key].b else alt
  }

  /** `getUInt(key, alt)`. */
  function GetUInt(m: Namespace, key: string, alt: nat): nat {
    if key in m && m[key].Num? then m[key].n else alt
  }
}
