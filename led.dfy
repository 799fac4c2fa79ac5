/** The PWM-driven LED (class LED): its duty-cycle and frequency fields. The GPIO and PWM calls
    that push the fields to the hardware are not modelled. */
module Led {

  function Min(a: real, b: real): real {
    if a <= b then a else b
  }

  function Max(a: real, b: real): real {
    if a >= b then a else b
  }

  /** `min(100, max(duty_cycle, 0))`: the requested duty cycle, in percent, forced into [0, 100]. */
  function Clamp(d: real): (r: real)
    ensures 0.0 <= r <= 100.0
    ensures 0.0 <= d <= 100.0 ==> r == d
  {
    Min(100.0, Max(d, 0.0))
  }

  /** The value `set_duty_cycle` stores: the clamped duty, or its complement for an LED wired
      active-low. */
  function StoredDuty(d: real, isInverse: bool): (r: real)
    ensures 0.0 <= r <= 100.0
  {
    var dc := Clamp(d);
    if !isInverse then dc else 100.0 - dc
  }

  /** How bright an LED with stored duty `duty` shines, in percent: an inverse LED is lit while the
      PWM output is low. */
  function Brightness(duty: real, isInverse: bool): real {
    if !isInverse then duty else 100.0 - duty
  }

  /** The clamp picks the point of [0, 100] nearest to the request. */
  lemma ClampNearest(d: real, v: real)
    requires 0.0 <= v <= 100.0
    ensures Dist(Clamp(d), d) <= Dist(v, d)
  {
  }

  function Dist(a: real, b: real): real {
    if a >= b then a - b else b - a
  }

  /** Clamping twice is clamping once. */
  lemma ClampIdempotent(d: real)
    ensures Clamp(Clamp(d)) == Clamp(d)
  {
  }

  /** Clamping keeps the order of requests. */
  lemma ClampMonotonic(d: real, e: real)
    requires d <= e
    ensures Clamp(d) <= Clamp(e)
  {
  }

  /** Whatever the wiring, the LED shines at the clamped request: the inversion in
      `set_duty_cycle` undoes the active-low wiring. */
  lemma StoredBrightness(d: real, isInverse: bool)
    ensures Brightness(StoredDuty(d, isInverse), isInverse) == Clamp(d)
  {
  }

  /** The two wirings store complementary duties for the same request. */
  lemma InverseComplements(d: real)
    ensures StoredDuty(d, true) == 100.0 - StoredDuty(d, false)
  {
  }

  class Led {
    const pin: int
    /** `_is_inverse`: set in the constructor only. */
    const isInverse: bool
    var freq: real
    /** `_duty_cycle`: the duty cycle last handed to the PWM, in percent. */
    var dutyCycle: real

    /** The stored duty is a percentage. */
    predicate Valid()
      reads this
    {
      0.0 <= dutyCycle <= 100.0
    }

    /** The brightness the LED shows now. */
    function Shown(): real
      reads this
    {
      Brightness(dutyCycle, isInverse)
    }

    /** `LED(pin, freq=2000, is_inverse=False)`: the PWM starts at the duty that keeps the LED
        dark, 0 for a plain LED and 100 for an inverse one. */
    constructor (pin: int, freq: real := 2000.0, isInverse: bool := false)
      ensures this.pin == pin && this.freq == freq && this.isInverse == isInverse
      ensures dutyCycle == (if isInverse then 100.0 else 0.0)
      ensures Valid() && Shown() == 0.0
    {
      this.pin := pin;
      this.isInverse := isInverse;
      this.freq := freq;
      dutyCycle := if !isInverse then 0.0 else 100.0;
    }

    /** `set_freq(freq)`: only the frequency changes. */
    method SetFreq(freq: real)
      requires Valid()
      modifies this
      ensures this.freq == freq
      ensures dutyCycle == old(dutyCycle) && Valid()
    {
      this.freq := freq;
    }

    /** `set_duty_cycle(duty_cycle)`: store the clamped request, complemented for an inverse LED;
        the LED then shines at the clamped request. */
    method SetDutyCycle(d: real)
      modifies this
      ensures dutyCycle == StoredDuty(d, isInverse)
      ensures freq == old(freq)
      ensures Valid() && Shown() == Clamp(d)
    {
      var dc := Min(100.0, Max(d, 0.0));
      dutyCycle := if !isInverse then dc else 100.0 - dc;
      StoredBrightness(d, isInverse);
    }

    /** `set_on`: full duty, so the LED is fully lit: 100 for a plain LED, 0 for an inverse one. */
    method SetOn()
      modifies this
      ensures dutyCycle == (if isInverse then 0.0 else 100.0)
      ensures freq == old(freq)
      ensures Valid() && Shown() == 100.0
    {
      SetDutyCycle(100.0);
    }

    /** `set_off`: zero duty, so the LED is dark: 0 for a plain LED, 100 for an inverse one. */
    method SetOff()
      modifies this
      ensures dutyCycle == (if isInverse then 100.0 else 0.0)
      ensures freq == old(freq)
      ensures Valid() && Shown() == 0.0
    {
      SetDutyCycle(0.0);
    }
  }
}
