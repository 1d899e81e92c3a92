/** The notification LED: battery and notification requests share three LEDs behind a cache of what was last set. */
module Lights {

  const FLASH_TIMED := 1

  /** A request: ARGB colour, flash mode and flash times. */
  datatype Light = Light(color: bv32, flashMode: int, onMS: int, offMS: int)

  /** What the hardware does. Turning the brightness to 0 stops any blinking. */
  datatype Mode = Off | Blink(onMS: int, offMS: int) | Solid

  /** One LED: the driver's cached status (0 off, 1 blinking, 2 on) and the hardware behind it. */
  datatype Led = Led(status: int, mode: Mode)

  // LED numbers
  const RED := 0
  const GREEN := 1
  const BLUE := 2

  predicate IsLit(l: Light) { l.color & 0x00ffffff != 0 }

  function OnTime(l: Light): int { if l.flashMode == FLASH_TIMED then l.onMS else 0 }
  function OffTime(l: Light): int { if l.flashMode == FLASH_TIMED then l.offMS else 0 }

  function StatusFor(on: bool, onMS: int, offMS: int): int {
    if !on then 0 else if onMS != 0 && offMS != 0 then 1 else 2
  }

  function ModeFor(status: int, onMS: int, offMS: int): Mode {
    if status == 0 then Off else if status == 1 then Blink(onMS, offMS) else Solid
  }

  /** Setting one LED: nothing happens when its cached status is already the one asked for. */
  function SetLed(led: Led, on: bool, onMS: int, offMS: int): Led {
    var now := StatusFor(on, onMS, offMS);
    if led.status == now then led else Led(now, ModeFor(now, onMS, offMS))
  }

  /** The one LED a request shows on, strongest channel first; none when its alpha is 0. */
  datatype Channel = None | Some(led: int)

  function Shown(l: Light): Channel {
    if (l.color >> 24) & 0xff == 0 then None
    else if (l.color >> 16) & 0xff != 0 then Some(RED)
    else if (l.color >> 8) & 0xff != 0 then Some(GREEN)
    else if l.color & 0xff != 0 then Some(BLUE)
    else None
  }

  /** The same three LEDs, freshly programmed for a request. */
  function Fresh(l: Light): seq<Led> {
    var dark := [Led(0, Off), Led(0, Off), Led(0, Off)];
    match Shown(l)
    case None => dark
    case Some(k) =>
      var s := StatusFor(true, OnTime(l), OffTime(l));
      if 0 <= k < 3 then dark[k := Led(s, ModeFor(s, OnTime(l), OffTime(l)))] else dark
  }

  /** Which of the latest two requests is in charge. */
  function InCharge(battery: Light, notification: Light): Light {
    if IsLit(battery) then battery else notification
  }

  ghost predicate Synced(led: Led) {
    && (led.status == 0 <==> led.mode == Off) && (led.status == 1 <==> led.mode.Blink?)
    && (led.status == 2 <==> led.mode == Solid)
  }

  ghost predicate SameStatus(a: seq<Led>, b: seq<Led>) {
    |a| == |b| == 3 && forall k :: 0 <= k < 3 ==> a[k].status == b[k].status
  }

  ghost predicate AtMostOneLit(leds: seq<Led>) {
    |leds| == 3 && forall i, j :: 0 <= i < j < 3 ==> leds[i].mode == Off || leds[j].mode == Off
  }

  /** An unlit request shows on no LED. */
  lemma {:induction false} UnlitShowsNothing(l: Light)
    requires !IsLit(l)
    ensures Shown(l) == None
  {
    assert (l.color >> 16) & 0xff == 0 && (l.color >> 8) & 0xff == 0 && l.color & 0xff == 0;
  }

  datatype Glow = Dark | Red(blinking: bool) | Green(blinking: bool) | Blue(blinking: bool)

  /** What a request asks for, from the bytes of its colour: with alpha, the first of red, green and blue that is not 0; it
      blinks exactly if the request is timed with both times given. */
  function Wanted(l: Light): Glow {
    var blinking := l.flashMode == 1 && l.onMS != 0 && l.offMS != 0;
    if l.color & 0xff000000 == 0 || l.color & 0x00ffffff == 0 then Dark
    else if l.color & 0x00ff0000 != 0 then Red(blinking)
    else if l.color & 0x0000ff00 != 0 then Green(blinking)
    else Blue(blinking)
  }

  /** What is to be seen, of which there is one thing at most. */
  function Seen(leds: seq<Led>): Glow
    requires |leds| == 3
  {
    if leds[0].mode != Off then Red(leds[0].mode.Blink?)
    else if leds[1].mode != Off then Green(leds[1].mode.Blink?)
    else if leds[2].mode != Off then Blue(leds[2].mode.Blink?)
    else Dark
  }

  lemma {:induction false} Bytes(c: bv32)
    ensures (c >> 24) & 0xff == 0 <==> c & 0xff000000 == 0
    ensures (c >> 16) & 0xff == 0 <==> c & 0x00ff0000 == 0
    ensures (c >> 8) & 0xff == 0 <==> c & 0x0000ff00 == 0
    ensures c & 0x00ffffff == 0 <==> c & 0x00ff0000 == 0 && c & 0x0000ff00 == 0 && c & 0x000000ff == 0
  {
  }

  lemma {:induction false} ShownByColor(l: Light)
    ensures match Shown(l)
            case None => Wanted(l) == Dark
            case Some(k) => 0 <= k < 3 && if k == 0 then Wanted(l).Red? else if k == 1 then Wanted(l).Green? else Wanted(l).Blue?
  {
    Bytes(l.color);
  }

  /** Programmed afresh, the LEDs show what was asked for, with its blink times. */
  lemma {:induction false} FreshShows(l: Light)
    ensures Seen(Fresh(l)) == Wanted(l)
    ensures forall k :: 0 <= k < 3 && Fresh(l)[k].mode.Blink? ==> Fresh(l)[k].mode == Blink(l.onMS, l.offMS)
  {
    ShownByColor(l);
  }

  /** LEDs with the same statuses show the same. */
  lemma {:induction false} StatusShows(leds: seq<Led>, l: Light)
    requires SameStatus(leds, Fresh(l)) && forall k :: 0 <= k < 3 ==> Synced(leds[k])
    ensures Seen(leds) == Wanted(l)
  {
    FreshShows(l);
    assert forall k :: 0 <= k < 3 ==> Synced(Fresh(l)[k]);
  }

  /** When a request reaches the hardware in full although the cache may suppress the write: it shows nowhere, or does not
      blink, or its LED was not blinking, or was blinking with the same times already. */
  predicate TakesEffect(leds: seq<Led>, l: Light)
    requires |leds| == 3
  {
    match Shown(l)
    case None => true
    case Some(k) =>
      StatusFor(true, OnTime(l), OffTime(l)) != 1
      || (0 <= k < 3 ==> leds[k].status != 1 || leds[k].mode == Blink(OnTime(l), OffTime(l)))
  }

  function BlinkGreen(ms: int): Light { Light(0xff00ff00, FLASH_TIMED, ms, ms) }

  lemma {:induction false} GreenBlinks(ms: int)
    requires ms != 0
    ensures IsLit(BlinkGreen(ms)) && Shown(BlinkGreen(ms)) == Some(GREEN)
    ensures Fresh(BlinkGreen(ms)) == [Led(0, Off), Led(1, Blink(ms, ms)), Led(0, Off)]
  {
    var green: bv32 := 0xff00ff00;
    assert (green >> 16) & 0xff == 0 && (green >> 8) & 0xff == 0xff && (green >> 24) & 0xff == 0xff;
    assert green & 0x00ffffff == 0xff00;
  }

  class LightsDevice {
    const haveTrackball: bool
    var leds: seq<Led>
    var battery: Light
    var notification: Light

    ghost predicate Consistent()
      reads this
    {
      AtMostOneLit(leds) && forall k :: 0 <= k < 3 ==> Synced(leds[k])
    }

    /** After any sequence of requests: the cache agrees with the hardware, the statuses depend on the latest battery and
        notification requests only, and while the battery light is unlit even the blink times are the latest ones. */
    ghost predicate Valid()
      reads this
    {
      && Consistent()
      && SameStatus(leds, Fresh(InCharge(battery, notification)))
      && (!IsLit(battery) ==> leds == Fresh(notification))
    }

    constructor (haveTrackball: bool)
      ensures Valid() && this.haveTrackball == haveTrackball
      ensures !IsLit(battery) && !IsLit(notification) && leds == [Led(0, Off), Led(0, Off), Led(0, Off)]
    {
      this.haveTrackball := haveTrackball;
      leds := [Led(0, Off), Led(0, Off), Led(0, Off)];
      battery, notification := Light(0, 0, 0, 0), Light(0, 0, 0, 0);
      new;
      UnlitShowsNothing(notification);
    }

    /** blink_red, blink_green and blink_blue. Every step leaves at most one LED on. */
    method BlinkLed(k: int, level: bv32, onMS: int, offMS: int) returns (r: int)
      requires Consistent() && 0 <= k < 3
      requires level != 0 ==> forall j :: 0 <= j < 3 && j != k ==> leds[j].mode == Off
      modifies this`leds
      ensures Consistent() && leds == old(leds)[k := SetLed(old(leds)[k], level != 0, onMS, offMS)]
      ensures r == if old(leds)[k].status == StatusFor(level != 0, onMS, offMS) then -1 else 0
    {
      var now := StatusFor(level != 0, onMS, offMS);
      if leds[k].status == now {
        return -1;
      }
      leds := leds[k := Led(now, ModeFor(now, onMS, offMS))];
      return 0;
    }

    /** set_speaker_light_locked: the other two LEDs go off before the one asked for is set. */
    method SetSpeaker(l: Light)
      requires Consistent()
      modifies this`leds
      ensures Consistent() && SameStatus(leds, Fresh(l))
      ensures SameStatus(old(leds), Fresh(l)) ==> leds == old(leds)
      ensures match Shown(l)
        case None => leds == Fresh(l)
        case Some(k) =>
          0 <= k < 3 && leds == Fresh(l)[k := SetLed(old(leds)[k], true, OnTime(l), OffTime(l))]
    {
      var alpha := (l.color >> 24) & 0xff;
      var red := if alpha != 0 then (l.color >> 16) & 0xff else 0;
      var green := if alpha != 0 then (l.color >> 8) & 0xff else 0;
      var blue := if alpha != 0 then l.color & 0xff else 0;
      if red != 0 {
        Only(RED, red, OnTime(l), OffTime(l));
      } else if green != 0 {
        Only(GREEN, green, OnTime(l), OffTime(l));
      } else if blue != 0 {
        Only(BLUE, blue, OnTime(l), OffTime(l));
      } else {
        var r1 := BlinkLed(RED, 0, 0, 0);
        var r2 := BlinkLed(GREEN, 0, 0, 0);
        var r3 := BlinkLed(BLUE, 0, 0, 0);
      }
    }

    /** The other two LEDs off, then this one. */
    method Only(k: int, level: bv32, onMS: int, offMS: int)
      requires Consistent() && 0 <= k < 3 && level != 0
      modifies this`leds
      ensures Consistent()
      ensures forall j :: 0 <= j < 3 ==>
        leds[j] == if j == k then SetLed(old(leds)[k], true, onMS, offMS) else Led(0, Off)
    {
      var r1 := BlinkLed(if k == RED then GREEN else RED, 0, 0, 0);
      var r2 := BlinkLed(if k == BLUE then GREEN else BLUE, 0, 0, 0);
      var r3 := BlinkLed(k, level, onMS, offMS);
    }

    /** handle_speaker_battery_locked: an unlit battery request first turns everything off, so that the notification
        behind it is programmed afresh. */
    method HandleSpeaker()
      requires Consistent()
      modifies this`leds
      ensures Valid() && Seen(leds) == Wanted(InCharge(battery, notification))
      ensures IsLit(battery) ==> (leds == Fresh(battery) <==> TakesEffect(old(leds), battery))
      ensures IsLit(battery) && SameStatus(old(leds), Fresh(battery)) ==> leds == old(leds)
    {
      if IsLit(battery) {
        SetSpeaker(battery);
        ghost var c, target := Shown(battery), Fresh(battery);
        if c.Some? {
          assert Synced(old(leds)[c.led]);
          assert leds == target <==> leds[c.led] == target[c.led];
        }
      } else {
        UnlitShowsNothing(battery);
        SetSpeaker(battery);
        SetSpeaker(notification);
      }
      StatusShows(leds, InCharge(battery, notification));
    }

    /** With a trackball light, a battery request goes out at once, which makes no difference to what follows. */
    method Preset(l: Light)
      requires Consistent()
      modifies this`leds
      ensures Consistent() && (TakesEffect(leds, l) <==> TakesEffect(old(leds), l))
      ensures SameStatus(old(leds), Fresh(l)) ==> leds == old(leds)
    {
      if haveTrackball {
        SetSpeaker(l);
      }
    }

    method SetBattery(l: Light)
      requires Valid()
      modifies this
      ensures Valid() && battery == l && notification == old(notification)
      ensures IsLit(l) ==> (leds == Fresh(l) <==> TakesEffect(old(leds), l))
      ensures IsLit(l) && SameStatus(old(leds), Fresh(l)) ==> leds == old(leds)
      ensures Seen(leds) == if l.color & 0x00ffffff != 0 then Wanted(l) else Wanted(notification)
    {
      battery := l;
      Preset(l);
      HandleSpeaker();
    }

    method SetNotification(l: Light)
      requires Valid()
      modifies this
      ensures Valid() && notification == l && battery == old(battery)
      ensures Seen(leds) == if battery.color & 0x00ffffff != 0 then Wanted(battery) else Wanted(l)
      ensures if battery.color & 0x00ffffff != 0 then leds == old(leds)
              else forall k :: 0 <= k < 3 && leds[k].mode.Blink? ==> leds[k].mode == Blink(l.onMS, l.offMS)
    {
      notification := l;
      HandleSpeaker();
      FreshShows(l);
    }
  }

  /** New times ignored: on a new device, a battery light blinking green at 500/500 ms is asked to blink at 100/100 ms and
      goes on as before. */
  method NewTimesAreIgnored(haveTrackball: bool) returns (d: LightsDevice)
    ensures fresh(d) && d.Valid() && d.battery == BlinkGreen(100)
    ensures d.leds == Fresh(BlinkGreen(500)) != Fresh(BlinkGreen(100))
  {
    GreenBlinks(500);
    GreenBlinks(100);
    d := new LightsDevice(haveTrackball);
    d.SetBattery(BlinkGreen(500));
    assert d.leds == Fresh(BlinkGreen(500));
    d.SetBattery(BlinkGreen(100));
  }
}
