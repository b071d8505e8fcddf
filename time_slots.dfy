/**
  The half-hour time list both event dialogs offer, and the way their
  handleSave turns a chosen "HH:mm" label back into hours and minutes.
*/
module TimeSlots {
  import opened Wrappers
  import opened Text
  import opened Dates

  /** An hour written as padStart(2, '0') of its decimal digits. */
  function TwoDigits(h: nat): string {
    PadStart(NatToString(h), 2, '0')
  }

  /** The label of slot `i`: hour i / 2 in two digits, then ":00" or ":30". */
  function SlotLabel(i: nat): string {
    TwoDigits(i / 2) + [':'] + (if i % 2 == 0 then "00" else "30")
  }

  /** timeOptions: the 48 half-hour labels of a day, "00:00" first. */
  function TimeOptions(): (opts: seq<string>)
    ensures |opts| == 48
    ensures forall i :: 0 <= i < 48 ==> opts[i] == SlotLabel(i)
  {
    seq(48, i requires 0 <= i => SlotLabel(i))
  }

  /** An hour below 100 is written with exactly two digits. */
  lemma TwoDigitsLength(h: nat)
    requires h < 100
    ensures |TwoDigits(h)| == 2
  {
    if h >= 10 {
      assert |NatToString(h / 10)| == 1;
    }
  }

  /** Every label is five characters "HH:mm": two hour digits, a colon, two minute digits. */
  lemma SlotLabelShape(i: nat)
    requires i < 48
    ensures |SlotLabel(i)| == 5 && SlotLabel(i)[2] == ':'
    ensures forall k :: 0 <= k < 5 && k != 2 ==> IsDigit(SlotLabel(i)[k])
  {
    TwoDigitsLength(i / 2);
    var p := PadStart(NatToString(i / 2), 2, '0');
    assert forall k :: 0 <= k < 2 ==> IsDigit(p[k]) by {
      forall k | 0 <= k < 2 ensures IsDigit(p[k]) {
        if k >= |p| - |NatToString(i / 2)| {
          assert p[k] == p[|p| - |NatToString(i / 2)|..][k - (|p| - |NatToString(i / 2)|)];
        }
      }
    }
  }

  /**
    `const [h, m] = time.split(':').map(Number)`: the numbers before and
    after the first ':'; None where setHours would receive NaN (a piece that
    is not a digit string, or no ':' at all).
  */
  function ParseTime(s: string): Option<(nat, nat)> {
    var parts := Split(s, ':');
    if |parts| < 2 then None
    else match (Number(parts[0]), Number(parts[1]))
      case (Some(h), Some(m)) => Some((h, m))
      case _ => None
  }

  /** A string of decimal digits holds no ':' and splits into itself. */
  lemma DigitsUnsplit(s: string)
    requires forall k :: 0 <= k < |s| ==> IsDigit(s[k])
    ensures ':' !in s && Split(s, ':') == [s]
  {
    assert IndexOf(s, ':') == |s|;
  }

  /** The hour part reads back as the hour and holds no ':'. */
  lemma TwoDigitsValue(h: nat)
    ensures ':' !in TwoDigits(h) && Number(TwoDigits(h)) == Some(h)
  {
    PaddedValue(h, 2);
    DigitsUnsplit(TwoDigits(h));
  }

  /** The minute parts "00" and "30" read back as 0 and 30. */
  lemma MinuteValues()
    ensures Split("00", ':') == ["00"] && Number("00") == Some(0)
    ensures Split("30", ':') == ["30"] && Number("30") == Some(30)
  {
    DigitsUnsplit("00");
    DigitsUnsplit("30");
    assert "30"[..1] == "3";
    assert "00"[..1] == "0";
  }

  /** Parsing the label of slot `i` gives hour i / 2 and minute 0 or 30. */
  lemma ParseSlotLabel(i: nat)
    requires i < 48
    ensures ParseTime(SlotLabel(i)) == Some((i / 2, 30 * (i % 2)))
  {
    MinuteValues();
    ParseLabel(i / 2, if i % 2 == 0 then "00" else "30");
  }

  /** An hour in two digits, ':' and a minute part "00" or "30" parse to that hour and minute. */
  lemma ParseLabel(h: nat, mm: string)
    requires Split(mm, ':') == [mm] && Number(mm).Some?
    ensures ParseTime(TwoDigits(h) + [':'] + mm) == Some((h, Number(mm).value))
  {
    var hh := TwoDigits(h);
    TwoDigitsValue(h);
    SplitFirst(hh, mm, ':');
    ParseTwoParts(hh + [':'] + mm, hh, mm);
  }

  /** A string that splits into two numbers parses to that pair. */
  lemma ParseTwoParts(s: string, hh: string, mm: string)
    requires Split(s, ':') == [hh] + [mm]
    requires Number(hh).Some? && Number(mm).Some?
    ensures ParseTime(s) == Some((Number(hh).value, Number(mm).value))
  {
  }

  /** Every offered label parses to a time of day on the half hour. */
  lemma OptionsParse(opt: string)
    requires opt in TimeOptions()
    ensures ParseTime(opt).Some?
    ensures ParseTime(opt).value.0 < 24 && ParseTime(opt).value.1 in {0, 30}
  {
    var i :| 0 <= i < 48 && TimeOptions()[i] == opt;
    ParseSlotLabel(i);
  }

  /** No label is offered twice. */
  lemma OptionsDistinct(i: nat, j: nat)
    requires i < j < 48
    ensures TimeOptions()[i] != TimeOptions()[j]
  {
    ParseSlotLabel(i);
    ParseSlotLabel(j);
  }

  /** The dialogs' default times "09:00", "10:00" and "10:30" are among the offered labels. */
  lemma DefaultsOffered()
    ensures "09:00" in TimeOptions() && "10:00" in TimeOptions() && "10:30" in TimeOptions()
  {
    NineOClock();
    TenOClock();
    assert TimeOptions()[18] == SlotLabel(18);
    assert TimeOptions()[20] == SlotLabel(20);
    assert TimeOptions()[21] == SlotLabel(21);
  }

  /** "09:00" is the label of slot 18. */
  lemma NineOClock()
    ensures SlotLabel(18) == "09:00"
  {
    assert TwoDigits(9) == "09" by {
      assert NatToString(9) == [DigitChar(9)] && DigitChar(9) == '9';
    }
    assert SlotLabel(18) == TwoDigits(9) + [':'] + "00";
  }

  /** "10:00" and "10:30" are the labels of slots 20 and 21. */
  lemma TenOClock()
    ensures SlotLabel(20) == "10:00" && SlotLabel(21) == "10:30"
  {
    assert TwoDigits(10) == "10" by {
      assert DigitChar(1) == '1' && DigitChar(0) == '0';
      assert NatToString(10) == NatToString(1) + [DigitChar(0)];
    }
    assert SlotLabel(20) == TwoDigits(10) + [':'] + "00";
    assert SlotLabel(21) == TwoDigits(10) + [':'] + "30";
  }

  /**
    `date.setHours(h, m)` with `[h, m]` parsed from an offered label: the same
    day at that hour and minute.
  */
  function SetHours(t: DateTime, time: string): (r: DateTime)
    requires time in TimeOptions()
    ensures r.date == t.date && ParseTime(time) == Some((r.hour, r.minute))
    ensures ValidDate(t.date) ==> ValidDateTime(r)
  {
    OptionsParse(time);
    var p := ParseTime(time).value;
    DateTime(t.date, p.0, p.1)
  }

  /** Choosing label i sets the time to hour i / 2 and minute 0 or 30. */
  lemma SetHoursSlot(t: DateTime, i: nat)
    requires i < 48
    ensures SetHours(t, TimeOptions()[i]) == DateTime(t.date, i / 2, 30 * (i % 2))
  {
    ParseSlotLabel(i);
  }
}
