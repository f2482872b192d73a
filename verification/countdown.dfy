/**
 * The countdown shown on listing cards, the dashboard and the listing page:
 * once per second it splits the time left until the deadline into days,
 * hours, minutes and seconds, flags the last six hours as urgent, and stops
 * for good once the deadline has passed.
 */
module Countdown {
  import opened Wrappers
  import opened Domain
  import opened Text

  datatype TimeLeft = TimeLeft(days: nat, hours: nat, minutes: nat, seconds: nat)

  /** The whole milliseconds a split stands for. */
  function Millis(t: TimeLeft): int {
    t.days * 86400000 + t.hours * 3600000 + t.minutes * 60000 + t.seconds * 1000
  }

  /**
   * The split of a positive remaining time `diff` (milliseconds), as the
   * interval callback computes it with `Math.floor` and `%`: hours, minutes
   * and seconds stay below their carry limits and together with the days
   * account for `diff` up to the dropped milliseconds.
   */
  function Split(diff: int): (t: TimeLeft)
    requires diff > 0
    ensures t.hours < 24 && t.minutes < 60 && t.seconds < 60
    ensures Millis(t) <= diff < Millis(t) + 1000
  {
    var t := TimeLeft(diff / 86400000, (diff % 86400000) / 3600000, (diff % 3600000) / 60000, (diff % 60000) / 1000);
    SplitArith(diff, t);
    t
  }

  /** The arithmetic behind Split: each `%` by a smaller unit sees the same remainder. */
  lemma SplitArith(diff: int, t: TimeLeft)
    requires diff > 0
    requires t == TimeLeft(diff / 86400000, (diff % 86400000) / 3600000, (diff % 3600000) / 60000, (diff % 60000) / 1000)
    ensures t.hours < 24 && t.minutes < 60 && t.seconds < 60
    ensures Millis(t) <= diff < Millis(t) + 1000
  {
    var r1 := diff % 86400000;
    var r2 := r1 % 3600000;
    assert r1 == t.hours * 3600000 + r2;
    ModUnique(diff, 3600000, t.days * 24 + t.hours, r2);
    var r3 := r2 % 60000;
    assert r2 == t.minutes * 60000 + r3;
    ModUnique(diff, 60000, t.days * 1440 + t.hours * 60 + t.minutes, r3);
    assert r3 == t.seconds * 1000 + r3 % 1000;
  }

  /** Euclidean division by a positive divisor has one quotient and one remainder. */
  lemma ModUnique(x: int, dv: int, q: int, r: int)
    requires dv > 0 && 0 <= r < dv && x == q * dv + r
    ensures x / dv == q && x % dv == r
  {
    var q', r' := x / dv, x % dv;
    assert x == q' * dv + r';
    if q' < q {
      assert (q - q') * dv >= dv by { MulMono(q - q', 1, dv); }
      assert false;
    } else if q' > q {
      assert (q' - q) * dv >= dv by { MulMono(q' - q, 1, dv); }
      assert false;
    }
  }

  lemma MulMono(a: int, b: int, c: int)
    requires a >= b && c > 0
    ensures a * c >= b * c
  {
  }

  /** Only one split meets those bounds: any split with them is the callback's. */
  lemma SplitIsUnique(diff: int, t: TimeLeft)
    requires diff > 0
    requires t.hours < 24 && t.minutes < 60 && t.seconds < 60
    requires Millis(t) <= diff < Millis(t) + 1000
    ensures t == Split(diff)
  {
    var ms := diff - Millis(t);
    ModUnique(diff, 86400000, t.days, t.hours * 3600000 + t.minutes * 60000 + t.seconds * 1000 + ms);
    ModUnique(diff % 86400000, 3600000, t.hours, t.minutes * 60000 + t.seconds * 1000 + ms);
    ModUnique(diff, 3600000, t.days * 24 + t.hours, t.minutes * 60000 + t.seconds * 1000 + ms);
    ModUnique(diff % 3600000, 60000, t.minutes, t.seconds * 1000 + ms);
    ModUnique(diff, 60000, t.days * 1440 + t.hours * 60 + t.minutes, t.seconds * 1000 + ms);
    ModUnique(diff % 60000, 1000, t.seconds, ms);
  }

  /** `days === 0 && hours < 6` */
  predicate Urgent(t: TimeLeft) {
    t.days == 0 && t.hours < 6
  }

  /** The urgent flag is on exactly in the last six hours. */
  lemma UrgentIffUnderSixHours(diff: int)
    requires diff > 0
    ensures Urgent(Split(diff)) <==> diff < 21600000
  {
  }

  datatype TickResult = Expired | Running(left: TimeLeft, urgent: bool)

  /**
   * One run of the interval callback at instant `now` for deadline `end`:
   * expired once nothing is left, otherwise the split of what is left and
   * whether fewer than six hours remain.
   */
  function Tick(end: int, now: int): (r: TickResult)
    ensures r.Expired? <==> end <= now
    ensures r.Running? ==> Millis(r.left) <= end - now < Millis(r.left) + 1000
    ensures r.Running? ==> (r.urgent <==> end - now < 21600000)
  {
    var diff := end - now;
    if diff <= 0 then Expired
    else
      var t := Split(diff);
      UrgentIffUnderSixHours(diff);
      Running(t, Urgent(t))
  }

  /** The state of one countdown component. */
  class Timer {
    const endDate: int
    var timeLeft: TimeLeft
    var isUrgent: bool
    var isExpired: bool
    /** Whether the one-second interval is still set. */
    var running: bool

    /** The interval is set exactly until the countdown has expired. */
    ghost predicate Valid()
      reads this
    {
      running == !isExpired
    }

    /** Mounting: every unit 0, neither urgent nor expired, the interval set. */
    constructor (endDate: int)
      ensures Valid() && this.endDate == endDate
      ensures timeLeft == TimeLeft(0, 0, 0, 0) && !isUrgent && !isExpired && running
    {
      this.endDate := endDate;
      timeLeft := TimeLeft(0, 0, 0, 0);
      isUrgent := false;
      isExpired := false;
      running := true;
    }

    /**
     * The interval callback at instant `now`. Past the deadline it marks the
     * countdown expired and clears the interval without touching the units;
     * before it, it stores the new split and the urgent flag.
     */
    method OnInterval(now: int)
      requires Valid() && running
      modifies this
      ensures Valid()
      ensures match Tick(endDate, now)
        case Expired =>
          isExpired && !running && timeLeft == old(timeLeft) && isUrgent == old(isUrgent)
        case Running(left, urgent) =>
          timeLeft == left && isUrgent == urgent && !isExpired && running
    {
      var diff := endDate - now;
      if diff <= 0 {
        isExpired := true;
        running := false;
        return;
      }
      var t := Split(diff);
      timeLeft := t;
      isUrgent := t.days == 0 && t.hours < 6;
    }

    /**
     * The caption that replaces the units once the countdown has expired, as
     * the component spells it: not the label the other pages give a listing
     * awaiting the seller's choice.
     */
    function Caption(): (c: Option<string>)
      reads this
      ensures c.Some? <==> isExpired
      ensures c.Some? ==> c.value != ListingStatusLabel(AguardandoEscolha)
      ensures c.Some? ==> |c.value| == |ListingStatusLabel(AguardandoEscolha)| + 1
    {
      ExpiredCaptionMisspelt();
      if isExpired then Some(ExpiredCaptionAsWritten) else None
    }
  }

  /** `u` is how a unit of value `n` is displayed: padded digits that read back as `n`. */
  predicate ShowsUnit(u: string, n: nat) {
    |u| >= 2 && AllDigits(u) && DecimalValue(u) == n && (n < 100 ==> |u| == 2)
  }

  /** Three two-character fields joined by colons sit at fixed places. */
  lemma {:induction false} ClockLayout(h: string, m: string, s: string)
    requires |h| == 2 && |m| == 2 && |s| == 2
    ensures var r := h + ":" + m + ":" + s;
      |r| == 8 && r[2] == ':' && r[5] == ':' && r[0..2] == h && r[3..5] == m && r[6..8] == s
  {
    var r := h + ":" + m + ":" + s;
    assert r == h + [':'] + m + [':'] + s;
  }

  /**
   * The `HH:MM:SS` part of the compact view (`padStart(2, "0")` on each
   * unit): eight characters whose three fields display the units.
   */
  function ClockText(t: TimeLeft): (r: string)
    requires t.hours < 24 && t.minutes < 60 && t.seconds < 60
    ensures |r| == 8 && r[2] == ':' && r[5] == ':'
    ensures ShowsUnit(r[0..2], t.hours) && ShowsUnit(r[3..5], t.minutes) && ShowsUnit(r[6..8], t.seconds)
  {
    var h, m, s := Pad2(t.hours), Pad2(t.minutes), Pad2(t.seconds);
    ClockLayout(h, m, s);
    h + ":" + m + ":" + s
  }

  /** The compact view: `${days}d HH:MM:SS`, the days unpadded. */
  function CompactText(t: TimeLeft): (r: string)
    requires t.hours < 24 && t.minutes < 60 && t.seconds < 60
    ensures |r| == |NatToString(t.days)| + 10
    ensures r[..|NatToString(t.days)|] == NatToString(t.days)
    ensures r[|NatToString(t.days)|..] == "d " + ClockText(t)
  {
    var days := NatToString(t.days);
    var clock := ClockText(t);
    var r := days + ("d " + clock);
    assert r[..|days|] == days;
    assert r[|days|..] == "d " + clock;
    r
  }

  /** The full view: days, hours, minutes and seconds, in that order, each displayed padded. */
  function UnitTexts(t: TimeLeft): (units: seq<string>)
    ensures |units| == 4
    ensures forall k :: 0 <= k < 4 ==> ShowsUnit(units[k], [t.days, t.hours, t.minutes, t.seconds][k])
  {
    var values := [t.days, t.hours, t.minutes, t.seconds];
    seq(4, k requires 0 <= k < 4 => Pad2(values[k]))
  }

  /**
   * The caption of an expired countdown as the component spells it: the
   * UTF-8 bytes of "ó" were read as the two characters "√≥".
   */
  const ExpiredCaptionAsWritten: string := "Escolha Obrigat\U{221A}\U{2265}ria"

  /** The caption meant: the label of a listing awaiting the seller's choice. */
  const ExpiredCaption: string := "Escolha Obrigat\U{F3}ria"

  /** The caption as written is not the label the rest of the interface uses for that state. */
  lemma ExpiredCaptionMisspelt()
    ensures ExpiredCaptionAsWritten != ListingStatusLabel(AguardandoEscolha)
    ensures |ExpiredCaptionAsWritten| == |ListingStatusLabel(AguardandoEscolha)| + 1
  {
    assert ExpiredCaptionAsWritten[15] != ListingStatusLabel(AguardandoEscolha)[15];
  }

  /** The corrected caption is exactly that label. */
  lemma ExpiredCaptionMatchesStatus()
    ensures ExpiredCaption == ListingStatusLabel(AguardandoEscolha)
  {
  }
}
