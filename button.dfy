/** The push-button timer (`Button`): it remembers the last pin level seen and
    the millisecond clock at the last press, and reports how long the button
    has been held down, truncated to 16 bits.  The pin reading and `millis()`
    are parameters of each call. */
module ButtonTimer {
  import opened ArduinoString

  /** `uint16_t` and `uint32_t`. */
  type uint16 = x: int | 0 <= x < 0x1_0000
  type uint32 = x: int | 0 <= x < 0x1_0000_0000

  /** `state_t`: the pin reads low (DOWN) while the button is pressed,
      because the input has a pull-up. */
  datatype Level = Down | Up

  /** The default long-press threshold of the constructor, in milliseconds. */
  const DefaultLongMs: uint16 := 3000

  /** `m_lastms` and `m_prev_state`. */
  datatype Timer = Timer(lastms: uint32, prev: Level)

  /** The timer after one `pressed()` call, and the value it returned. */
  datatype Sample = Sample(after: Timer, held: uint16)

  /** `pressed()`: `millis() - m_lastms` is computed in 32 bits and stored in
      a `uint16_t`.  Only one of the two `millis()` reads in the source can
      affect the outcome of a call, so one `now` stands for both. */
  function Press(t: Timer, level: Level, now: uint32): Sample {
    var held: uint16 := if level == Up then 0 else ((now - t.lastms) % 0x1_0000_0000) % 0x1_0000;
    if level == t.prev then Sample(t, held)
    else Sample(Timer(if level == Down then now else t.lastms, level), 0)
  }

  class Button {
    const pin: uint8
    const longMs: uint16
    var lastms: uint32
    var prevState: Level

    function State(): Timer
      reads this
    {
      Timer(lastms, prevState)
    }

    /** `Button(pin, ms = 3000)`. */
    constructor (pin: uint8, ms: uint16 := DefaultLongMs)
      ensures this.pin == pin && longMs == ms
      ensures State() == Timer(0, Up)
    {
      this.pin := pin;
      longMs := ms;
      lastms := 0;
      prevState := Up;
    }

    method Pressed(level: Level, now: uint32) returns (held: uint16)
      modifies this
      ensures Sample(State(), held) == Press(old(State()), level, now)
    {
      var t: uint16 := if level == Up then 0 else ((now - lastms) % 0x1_0000_0000) % 0x1_0000;
      if level == prevState {
        return t;
      }
      prevState := level;
      if level == Down {
        lastms := now;
      }
      held := 0;
    }

    /** `down()`: reads the pin only. */
    function IsDown(level: Level): (down: bool)
      ensures down <==> level != Up
    {
      level == Down
    }

    /** `up()`: `!down()`. */
    function IsUp(level: Level): (up: bool)
      ensures up <==> level == Up
    {
      !IsDown(level)
    }

    /** `long_press()`: `pressed()` strictly above the threshold. */
    method LongPress(level: Level, now: uint32) returns (long: bool)
      modifies this
      ensures State() == Press(old(State()), level, now).after
      ensures long <==> Press(old(State()), level, now).held > longMs
    {
      var held := Pressed(level, now);
      long := held > longMs;
    }
  }

  // ---------------------------------------------------------------------------
  // Properties
  // ---------------------------------------------------------------------------

  /** With the pin up, `pressed()` returns 0, whatever the state. */
  lemma UpReadsZero(t: Timer, now: uint32)
    ensures Press(t, Up, now).held == 0
    ensures Press(t, Up, now).after == Timer(t.lastms, Up)
  {
  }

  /** The call that sees a level change returns 0 and records the new level;
      a change to DOWN also records the time of the press. */
  lemma ChangeReadsZero(t: Timer, level: Level, now: uint32)
    requires level != t.prev
    ensures Press(t, level, now).held == 0
    ensures Press(t, level, now).after.prev == level
    ensures Press(t, level, now).after.lastms == if level == Down then now else t.lastms
  {
  }

  /** While the button stays down, `pressed()` returns the time since the
      press modulo 2^16: the 32-bit wrap of `millis()` is invisible, the
      16-bit truncation is not. */
  lemma HeldTime(t: Timer, now: uint32)
    requires t.prev == Down
    ensures Press(t, Down, now) == Sample(t, (now - t.lastms) % 0x1_0000)
  {
    var d := now - t.lastms;
    var q := d / 0x1_0000_0000;
    assert d % 0x1_0000_0000 == d - q * 0x1_0000_0000;
    assert d - q * 0x1_0000_0000 == d + (-q * 0x1_0000) * 0x1_0000;
  }

  /** The values returned by a run of `pressed()` calls. */
  function Run(t: Timer, samples: seq<(Level, uint32)>): seq<uint16>
    decreases |samples|
  {
    if samples == [] then []
    else
      var s := Press(t, samples[0].0, samples[0].1);
      [s.held] + Run(s.after, samples[1..])
  }

  /** A press at `t0` after the button was up, then calls at `times` while it
      is held: the first call returns 0 and the k-th later call returns
      `(times[k] - t0) % 2^16`; so `long_press()` holds on exactly the calls
      where that value exceeds the threshold. */
  lemma {:induction false} HoldSequence(t: Timer, t0: uint32, times: seq<uint32>)
    requires t.prev == Up
    ensures Run(t, [(Down, t0)] + seq(|times|, k requires 0 <= k < |times| => (Down, times[k]))) ==
            [0] + seq(|times|, k requires 0 <= k < |times| => (times[k] - t0) % 0x1_0000)
  {
    var pressed := Timer(t0, Down);
    var samples := [(Down, t0)] + seq(|times|, k requires 0 <= k < |times| => (Down, times[k]));
    assert samples[1..] == seq(|times|, k requires 0 <= k < |times| => (Down, times[k]));
    HoldFrom(pressed, times);
  }

  lemma {:induction false} HoldFrom(t: Timer, times: seq<uint32>)
    requires t.prev == Down
    ensures Run(t, seq(|times|, k requires 0 <= k < |times| => (Down, times[k]))) ==
            seq(|times|, k requires 0 <= k < |times| => (times[k] - t.lastms) % 0x1_0000)
    decreases |times|
  {
    var samples := seq(|times|, k requires 0 <= k < |times| => (Down, times[k]));
    if times != [] {
      HeldTime(t, times[0]);
      HoldFrom(t, times[1..]);
      assert samples[1..] == seq(|times[1..]|, k requires 0 <= k < |times[1..]| => (Down, times[1..][k]));
    }
  }
}
