/** hooks/use-otp-timer.ts: a countdown in whole seconds.  The per-second effect is the method
    `Tick`: each run either marks the timer expired or, one second later, takes a second off. */
module OtpTimer {
  import opened JsText

  /** JavaScript's `%`: the remainder takes the sign of the dividend. */
  function JsRemainder(t: int, d: nat): (r: int)
    requires d > 0
    ensures t >= 0 ==> 0 <= r < d
    ensures t < 0 ==> -(d as int) < r <= 0
  {
    if t >= 0 then t % d else -((-t) % d)
  }

  /** `x.toString().padStart(2, "0")` */
  function TwoDigits(x: int): string {
    PadStart(IntToString(x), 2, '0')
  }

  /** `formatTime` for a time left of `t` seconds: `Math.floor(t / 60)` and `t % 60`, each
      padded to two characters, joined by ':'. */
  function FormatSeconds(t: int): string {
    TwoDigits(t / 60) + ":" + TwoDigits(JsRemainder(t, 60))
  }

  /** A number below 100 padded to two places is two digits that read back as the number. */
  lemma TwoDigitsOf(n: nat)
    requires n < 100
    ensures |TwoDigits(n)| == 2 && AllDigits(TwoDigits(n)) && DecimalValue(TwoDigits(n)) == n
  {
    NatToStringLength(n, 2);
    NatToStringValue(n);
    ZeroPadValue(NatToString(n), 2);
  }

  /** Two two-character parts joined by ':' sit at fixed places. */
  lemma ColonJoined(a: string, b: string)
    requires |a| == 2 && |b| == 2
    ensures var s := a + ":" + b; |s| == 5 && s[2] == ':' && s[..2] == a && s[3..] == b
  {
    var s := a + ":" + b;
    assert s[..2] == a && s[3..] == b;
  }

  /** Below 100 minutes the display is "MM:SS", five characters, with SS below 60 and
      MM * 60 + SS the time left. */
  lemma FormatSecondsShape(t: int)
    requires 0 <= t < 6000
    ensures var s := FormatSeconds(t);
      && |s| == 5 && s[2] == ':' && AllDigits(s[..2]) && AllDigits(s[3..])
      && DecimalValue(s[3..]) < 60
      && DecimalValue(s[..2]) * 60 + DecimalValue(s[3..]) == t
  {
    var m, r := t / 60, JsRemainder(t, 60);
    assert r == t % 60 && m * 60 + r == t;
    TwoDigitsOf(m);
    TwoDigitsOf(r);
    ColonJoined(TwoDigits(m), TwoDigits(r));
  }

  class Timer {
    /** `initialSeconds`, 60 by default */
    const initialSeconds: int
    var timeLeft: int
    var isExpired: bool

    /** Expired only once the time is used up; the time left never rises above the start
        and, from a non-negative start, never falls below 0. */
    ghost predicate Valid()
      reads this
    {
      && (isExpired ==> timeLeft <= 0)
      && Min(0, initialSeconds) <= timeLeft <= initialSeconds
    }

    constructor (initialSeconds: int := 60)
      ensures Valid()
      ensures this.initialSeconds == initialSeconds && timeLeft == initialSeconds && !isExpired
    {
      this.initialSeconds := initialSeconds;
      timeLeft := initialSeconds;
      isExpired := false;
    }

    /** One run of the effect. */
    method Tick()
      requires Valid()
      modifies this
      ensures Valid()
      ensures old(timeLeft) <= 0 ==> isExpired && timeLeft == old(timeLeft)
      ensures old(timeLeft) > 0 ==> timeLeft == old(timeLeft) - 1 && isExpired == old(isExpired)
    {
      if timeLeft <= 0 {
        isExpired := true;
      } else {
        timeLeft := timeLeft - 1;
      }
    }

    /** `reset` */
    method Reset()
      requires Valid()
      modifies this
      ensures Valid()
      ensures timeLeft == initialSeconds && !isExpired
    {
      timeLeft := initialSeconds;
      isExpired := false;
    }

    /** `formatTime()` */
    function FormatTime(): string
      reads this
    {
      FormatSeconds(timeLeft)
    }
  }
}
